/** What each chain operation changes, seen from outside the chain: which ids
    still await a round two, and which have been given a final timestamp. */
module SkeensEffects {
  import opened SkeensOrder
  import opened SkeensChain

  /** Queue position k holds id, proposed ts, without a final timestamp. */
  predicate WaitsAt(queue: seq<Waiting>, id: Id, ts: Time, k: int) {
    0 <= k < |queue| && queue[k].Wait? && queue[k].id == id && queue[k].ts == ts
  }

  /** This chain proposed ts for id and has no final timestamp for it yet. */
  ghost predicate WaitsWith(s: Chain, id: Id, ts: Time) {
    exists k :: WaitsAt(s.queue, id, ts, k)
  }

  ghost predicate AssignedInQueue(queue: seq<Waiting>, id: Id, ts: Time) {
    exists k :: 0 <= k < |queue| && queue[k].HasMax? && queue[k].id == id && queue[k].ts == ts
  }

  ghost predicate AssignedInHeap(heap: set<GotMax>, id: Id, ts: Time) {
    exists g :: g in heap && g.GotMulti? && g.id == id && g.ts == ts
  }

  ghost predicate AssignedInHistory(history: seq<Event>, id: Id, ts: Time) {
    exists j :: FlushedAt(history, j) && history[j].g.GotMulti? && history[j].g.id == id && history[j].g.ts == ts
  }

  /** The multi-append id has final timestamp ts on this chain, delivered or not. */
  ghost predicate Assigned(s: Chain, id: Id, ts: Time) {
    AssignedInQueue(s.queue, id, ts) || AssignedInHeap(s.heap, id, ts) || AssignedInHistory(s.history, id, ts)
  }

  /** Nothing that waits or is assigned differs between s and r. */
  ghost predicate SamePending(s: Chain, r: Chain) {
    && (forall x, t :: WaitsWith(s, x, t) <==> WaitsWith(r, x, t))
    && (forall x, t :: Assigned(s, x, t) <==> Assigned(r, x, t))
  }

  /** The delivery order only grows, by flushed entries only. */
  ghost predicate GrowsByFlush(s: Chain, r: Chain) {
    && s.history <= r.history
    && (forall j :: |s.history| <= j < |r.history| ==> r.history[j].Flushed?)
    && s.accepted == r.accepted
  }

  lemma WaitsIsAwaiting(s: Chain, id: Id, ts: Time)
    requires Core(s) && WaitsWith(s, id, ts)
    ensures Awaiting(s, id) && Proposed(s, id) == ts
  {
    hide ClockInv, AcceptedIdsInv, PoppedInv, HistoryIdsInv, DirectIdsInv, CoverInv, OrderInv, LastFlushInv,
      DirectInv, IndexInv;
    var k :| WaitsAt(s.queue, id, ts, k);
    assert Matches(s.queue[k], s.start + k, s.accepted[s.start + k]);
  }

  lemma PushPending(s: Chain, origin: Origin, id: Id)
    ensures var r := Push(s, origin, id);
      && (forall x, t :: WaitsWith(r, x, t) <==>
            WaitsWith(s, x, t) || (origin.FromMulti? && x == id && t == s.nextTs))
      && (forall x, t :: Assigned(s, x, t) <==> Assigned(r, x, t))
  {
    var r := Push(s, origin, id);
    var n := |s.queue|;
    forall x, t | WaitsWith(s, x, t) ensures WaitsWith(r, x, t) {
      var k :| WaitsAt(s.queue, x, t, k);
      assert WaitsAt(r.queue, x, t, k);
    }
    forall x, t | WaitsWith(r, x, t)
      ensures WaitsWith(s, x, t) || (origin.FromMulti? && x == id && t == s.nextTs)
    {
      var k :| WaitsAt(r.queue, x, t, k);
      if k < n { assert WaitsAt(s.queue, x, t, k); }
    }
    if origin.FromMulti? { assert WaitsAt(r.queue, id, s.nextTs, n); }
    forall x, t ensures AssignedInQueue(s.queue, x, t) <==> AssignedInQueue(r.queue, x, t) {
      assert forall k :: 0 <= k < n ==> r.queue[k] == s.queue[k];
    }
  }

  lemma SetAtPending(s: Chain, k: nat, id: Id, m: Time)
    requires k < |s.queue| && s.queue[k].Wait? && s.queue[k].id == id
    requires forall i, j :: 0 <= i < j < |s.queue| ==> s.queue[i].id != s.queue[j].id
    ensures var r := SetAt(s, s.start + k, m);
      && (forall x, t :: WaitsWith(r, x, t) <==> WaitsWith(s, x, t) && x != id)
      && (forall x, t :: Assigned(r, x, t) <==> Assigned(s, x, t) || (x == id && t == m))
  {
    var r := SetAt(s, s.start + k, m);
    assert forall i :: 0 <= i < |s.queue| && i != k ==> r.queue[i] == s.queue[i];
    forall x, t ensures WaitsWith(r, x, t) <==> WaitsWith(s, x, t) && x != id {
      if x != id && WaitsWith(s, x, t) {
        var i :| WaitsAt(s.queue, x, t, i);
        assert WaitsAt(r.queue, x, t, i);
      }
      if WaitsWith(r, x, t) {
        var i :| WaitsAt(r.queue, x, t, i);
        assert WaitsAt(s.queue, x, t, i);
      }
    }
    forall x, t ensures AssignedInQueue(r.queue, x, t) <==> AssignedInQueue(s.queue, x, t) || (x == id && t == m) {
      if x == id && t == m { assert r.queue[k].HasMax?; }
      if i :| 0 <= i < |s.queue| && s.queue[i].HasMax? && s.queue[i].id == x && s.queue[i].ts == t {
        assert r.queue[i].HasMax?;
      }
    }
  }

  lemma PopOnePending(s: Chain)
    requires FrontReady(s)
    ensures SamePending(s, PopOne(s)) && GrowsByFlush(s, PopOne(s))
  {
    var r := PopOne(s);
    var g := IntoGotMax(s.queue[0]);
    assert forall k :: 0 <= k < |r.queue| ==> r.queue[k] == s.queue[k + 1];
    forall x, t | WaitsWith(s, x, t) ensures WaitsWith(r, x, t) {
      var k :| WaitsAt(s.queue, x, t, k);
      assert WaitsAt(r.queue, x, t, k - 1);
    }
    forall x, t | WaitsWith(r, x, t) ensures WaitsWith(s, x, t) {
      var k :| WaitsAt(r.queue, x, t, k);
      assert WaitsAt(s.queue, x, t, k + 1);
    }
    forall x, t | Assigned(s, x, t) ensures Assigned(r, x, t) {
      if k :| 0 <= k < |s.queue| && s.queue[k].HasMax? && s.queue[k].id == x && s.queue[k].ts == t {
        if k == 0 { assert g in r.heap; } else { assert r.queue[k - 1] == s.queue[k]; }
      } else {
        assert !AssignedInQueue(s.queue, x, t);
        if h :| h in s.heap && h.GotMulti? && h.id == x && h.ts == t { assert h in r.heap; }
      }
    }
    forall x, t | Assigned(r, x, t) ensures Assigned(s, x, t) {
      if k :| 0 <= k < |r.queue| && r.queue[k].HasMax? && r.queue[k].id == x && r.queue[k].ts == t {
        assert s.queue[k + 1] == r.queue[k];
      } else {
        assert !AssignedInQueue(r.queue, x, t);
        if h :| h in r.heap && h.GotMulti? && h.id == x && h.ts == t {
          if h == g { assert s.queue[0].HasMax?; } else { assert h in s.heap; }
        }
      }
    }
  }

  lemma {:induction false} PopReadyPending(s: Chain)
    ensures SamePending(s, PopReady(s)) && GrowsByFlush(s, PopReady(s))
    decreases |s.queue|
  {
    if FrontReady(s) {
      PopOnePending(s);
      PopReadyPending(PopOne(s));
    }
  }

  lemma FlushOnePending(s: Chain)
    requires CanFlush(s) && s.len > 0
    ensures SamePending(s, FlushOne(s)) && GrowsByFlush(s, FlushOne(s))
  {
    var r := FlushOne(s);
    var g := Top(s.heap);
    var last := |s.history|;
    forall x, t | AssignedInHistory(s.history, x, t) ensures AssignedInHistory(r.history, x, t) {
      var j :| FlushedAt(s.history, j) && s.history[j].g.GotMulti? && s.history[j].g.id == x && s.history[j].g.ts == t;
      assert FlushedAt(r.history, j);
    }
    forall x, t | AssignedInHeap(s.heap, x, t) ensures Assigned(r, x, t) {
      var h :| h in s.heap && h.GotMulti? && h.id == x && h.ts == t;
      if h == g { assert FlushedAt(r.history, last); } else { assert h in r.heap; }
    }
    forall x, t | AssignedInHistory(r.history, x, t) ensures Assigned(s, x, t) {
      var j :| FlushedAt(r.history, j) && r.history[j].g.GotMulti? && r.history[j].g.id == x && r.history[j].g.ts == t;
      if j < last { assert FlushedAt(s.history, j); } else { assert g in s.heap; }
    }
  }

  lemma {:induction false} FlushPending(s: Chain)
    requires s.len > 0
    ensures SamePending(s, Flush(s)) && GrowsByFlush(s, Flush(s))
    decreases |s.heap|
  {
    if CanFlush(s) {
      FlushOnePending(s);
      FlushPending(FlushOne(s));
    }
  }

  /** Round two takes exactly its own id from waiting to assigned. */
  lemma FinishMultiPending(s: Chain, id: Id, m: Time)
    requires Core(s) && Awaiting(s, id)
    ensures var r := FinishMulti(s, id, m);
      && (forall x, t :: WaitsWith(r, x, t) <==> WaitsWith(s, x, t) && x != id)
      && (forall x, t :: Assigned(r, x, t) <==> Assigned(s, x, t) || (x == id && t == m))
      && GrowsByFlush(s, r)
  {
    hide Core, WaitsWith, Assigned, PopReady, Flush;
    CoreLen(s);
    var b := Bump(s, m);
    BumpPending(s, m);
    assert forall i, j :: 0 <= i < j < |b.queue| ==> b.queue[i].id != b.queue[j].id by { QueueIdsDistinct(s); }
    var n := s.status[id].node;
    SetAtPending(b, n - s.start, id, m);
    PopReadyPending(SetAt(b, n, m));
    FlushPending(SetMax(s, id, m));
  }

  lemma CoreLen(s: Chain)
    requires Core(s)
    ensures s.len > 0
  {
  }

  lemma BumpPending(s: Chain, t: Time)
    ensures SamePending(s, Bump(s, t))
  {
  }

  /** Round one makes its own id wait under the answered timestamp. */
  lemma AddMultiPending(s: Chain, kind: Kind, id: Id)
    requires Core(s) && Fresh(s, id)
    ensures Answerable(s, id)
    ensures var (r, res) := AddMulti(s, kind, id);
      && res == NewAppend(s.nextTs, |s.accepted|)
      && (forall x, t :: WaitsWith(r, x, t) <==> WaitsWith(s, x, t) || (x == id && t == s.nextTs))
      && (forall x, t :: Assigned(s, x, t) <==> Assigned(r, x, t))
      && r.accepted == s.accepted + [Accepted(FromMulti(kind), id, s.nextTs)]
      && r.history == s.history
  {
    FreshNotInStatus(s, id);
    hide WaitsWith, Assigned;
    PushPending(s, FromMulti(kind), id);
  }

  /** A single append leaves every multi-append where it was. */
  lemma HandleSinglePending(s: Chain, id: Id, t: Time)
    requires Inv(s) && Fresh(s, id)
    ensures Answerable(s, id) && (NeedSingleAt(s, t) ==> s.queue != [])
    ensures var r := HandleSingle(s, id, t);
      && SamePending(s, r)
      && (if NeedSingleAt(s, t)
          then r.history == s.history
            && exists ts :: ts > t && r.accepted == s.accepted + [Accepted(FromSingle, id, ts)]
          else r.accepted == s.accepted && r.history == s.history + [Direct(id, t, s.len)])
  {
    FreshNotInStatus(s, id);
    var b := Bump(s, t);
    assert SamePending(s, b);
    if NeedSingleAt(s, t) {
      PushPending(b, FromSingle, id);
      assert b.nextTs > t;
    } else {
      DirectPending(b, Direct(id, t, b.len));
    }
  }

  lemma DirectPending(s: Chain, e: Event)
    requires e.Direct?
    ensures SamePending(s, s.(len := s.len + 1, history := s.history + [e]))
  {
    var r := s.(len := s.len + 1, history := s.history + [e]);
    forall x, t ensures AssignedInHistory(s.history, x, t) <==> AssignedInHistory(r.history, x, t) {
      if j :| FlushedAt(s.history, j) && s.history[j].g.GotMulti? && s.history[j].g.id == x && s.history[j].g.ts == t {
        assert FlushedAt(r.history, j);
      }
      if j :| FlushedAt(r.history, j) && r.history[j].g.GotMulti? && r.history[j].g.id == x && r.history[j].g.ts == t {
        assert FlushedAt(s.history, j);
      }
    }
  }

  ghost predicate IsDirect(history: seq<Event>, id: Id) {
    exists j :: DirectAt(history, j) && history[j].single == id
  }

  /** This chain has never been handed id. */
  ghost predicate Unseen(s: Chain, id: Id) {
    !IsAccepted(s.accepted, id) && !IsDirect(s.history, id)
  }

  lemma UnseenIsFresh(s: Chain, id: Id)
    requires Core(s) && Unseen(s, id)
    ensures Fresh(s, id)
  {
  }

  /** What waits or is assigned has been accepted as a multi-append. */
  lemma PendingIsSeen(s: Chain, id: Id, ts: Time)
    requires Core(s) && (WaitsWith(s, id, ts) || Assigned(s, id, ts))
    ensures IsAccepted(s.accepted, id)
  {
  }

  /** A chain proposes one timestamp per id. */
  lemma WaitsOnce(s: Chain, id: Id, t: Time, u: Time)
    requires Core(s) && WaitsWith(s, id, t) && WaitsWith(s, id, u)
    ensures t == u
  {
  }

  lemma AcceptUnseen(s: Chain, r: Chain, a: Accepted)
    requires r.accepted == s.accepted + [a] && r.history == s.history
    ensures forall x :: Unseen(r, x) <==> Unseen(s, x) && x != a.id
  {
    forall x ensures IsAccepted(r.accepted, x) <==> IsAccepted(s.accepted, x) || x == a.id {
      assert r.accepted[|s.accepted|] == a;
      if n :| 0 <= n < |s.accepted| && s.accepted[n].id == x { assert r.accepted[n].id == x; }
    }
  }

  lemma DirectUnseen(s: Chain, r: Chain, e: Event)
    requires r.accepted == s.accepted && r.history == s.history + [e] && e.Direct?
    ensures forall x :: Unseen(r, x) <==> Unseen(s, x) && x != e.single
  {
    forall x ensures IsDirect(r.history, x) <==> IsDirect(s.history, x) || x == e.single {
      assert DirectAt(r.history, |s.history|);
      if j :| DirectAt(s.history, j) && s.history[j].single == x { assert DirectAt(r.history, j); }
      if j :| DirectAt(r.history, j) && r.history[j].single == x && j < |s.history| { assert DirectAt(s.history, j); }
    }
  }

  lemma FlushUnseen(s: Chain, r: Chain)
    requires GrowsByFlush(s, r)
    ensures forall x :: Unseen(r, x) <==> Unseen(s, x)
    ensures forall j :: DirectAt(r.history, j) ==> DirectAt(s.history, j) && r.history[j] == s.history[j]
  {
  }
}
