/** Replicas over whole runs: what a head has said about an entry it never takes
    back, so a replica that follows the head at any pace agrees with it for good. */
module ReplicaRuns {
  import opened SkeensOrder
  import opened SkeensChain
  import opened SkeensEffects
  import opened SkeensSystem
  import opened SkeensTheorems
  import opened SkeensRuns
  import R = Replica

  // ---------------------------------------------------------------------------
  // The records of a head only grow

  /** Every record stays, and a finished one stays as it is. */
  ghost predicate Extends(x: seq<R.Record>, y: seq<R.Record>) {
    |x| <= |y| && forall n :: 0 <= n < |x| ==>
      && (x[n].origin, x[n].id, x[n].ts) == (y[n].origin, y[n].id, y[n].ts)
      && (x[n].done ==> y[n] == x[n])
  }

  lemma RecordGrows(a: Chain, b: Chain, n: nat)
    requires Core(b) && Grown(a, b) && n < |a.accepted|
    ensures var x, y := R.HeadRecord(a, n), R.HeadRecord(b, n);
      && (x.origin, x.id, x.ts) == (y.origin, y.id, y.ts)
      && (x.done ==> y == x)
  {
    hide Core;
    if R.HeadRecord(a, n).done {
      var j := R.FinishedRecord(a, n);
      R.DeliveredRecord(b, n, j);
    }
  }

  lemma TableGrows(a: Chain, b: Chain)
    requires Core(b) && Grown(a, b)
    ensures Extends(R.HeadTable(a), R.HeadTable(b))
  {
    hide Core, R.HeadRecord;
    forall n | 0 <= n < |R.HeadTable(a)|
      ensures var x, y := R.HeadTable(a)[n], R.HeadTable(b)[n];
        (x.origin, x.id, x.ts) == (y.origin, y.id, y.ts) && (x.done ==> y == x)
    {
      RecordGrows(a, b, n);
    }
  }

  lemma ArrivesLater(x: seq<R.Record>, y: seq<R.Record>, msgs: seq<R.Msg>)
    requires Extends(x, y) && R.Arrives(x, msgs)
    ensures R.Arrives(y, msgs)
  {
  }

  /** Old records mean the same in the longer table. */
  lemma {:induction false} SameReplica(x: seq<R.Record>, y: seq<R.Record>, msgs: seq<R.Msg>)
    requires Extends(x, y) && R.TableOk(x) && R.TableOk(y) && R.Arrives(x, msgs) && R.Arrives(y, msgs)
    ensures R.After(x, msgs) == R.After(y, msgs)
    decreases |msgs|
  {
    hide R.TableOk, R.Inv, R.CanApply, R.Round1, R.Round2;
    if msgs != [] {
      var last := |msgs| - 1;
      R.ArrivesPrefix(x, msgs);
      R.ArrivesPrefix(y, msgs);
      SameReplica(x, y, msgs[..last]);
    }
  }

  // ---------------------------------------------------------------------------
  // Over a run

  /** The replica of chain c in state s, after these of its head's records. */
  ghost function MirrorOf(s: Sys, c: ChainId, msgs: seq<R.Msg>): R.State
    requires Reachable(s) && R.Arrives(R.HeadTable(At(s.chains, c)), msgs)
  {
    ReachableChain(s, c);
    R.Mirror(At(s.chains, c), msgs)
  }

  /** Along every run a head's table only grows and its finished records stand. */
  lemma RecordsStand(s: Sys, steps: seq<Step>, t: Sys, c: ChainId)
    requires Reachable(s) && Follows(s, steps, t)
    ensures Extends(R.HeadTable(At(s.chains, c)), R.HeadTable(At(t.chains, c)))
  {
    hide SysInv, Reachable, Follows, Core, R.HeadTable;
    ReachableInv(s);
    RunGrows(s, steps, t, c);
    InvChain(t, c);
    TableGrows(At(s.chains, c), At(t.chains, c));
  }

  /** A replica fed with records the head had sent by s is, at every later t, what
      the head's records at t make of the same messages, and everything it has
      handed on is delivered at t with that timestamp and at that index. */
  lemma AgreesForGood(s: Sys, steps: seq<Step>, t: Sys, c: ChainId, msgs: seq<R.Msg>)
    requires Reachable(s) && Follows(s, steps, t) && R.Arrives(R.HeadTable(At(s.chains, c)), msgs)
    ensures Reachable(t) && R.Arrives(R.HeadTable(At(t.chains, c)), msgs)
    ensures MirrorOf(t, c, msgs) == MirrorOf(s, c, msgs)
    ensures forall n :: 0 <= n < |MirrorOf(s, c, msgs).emitted| ==>
      R.DeliveredAs(At(t.chains, c), MirrorOf(s, c, msgs).emitted[n])
  {
    hide Reachable, Follows, Core, R.HeadTable, R.Arrives, Extends, R.After, R.TableOk, R.DeliveredAs;
    StillReachable(s, steps, t);
    RecordsStand(s, steps, t, c);
    ReachableChain(s, c);
    ReachableChain(t, c);
    var a, b := At(s.chains, c), At(t.chains, c);
    ArrivesLater(R.HeadTable(a), R.HeadTable(b), msgs);
    R.HeadTableOk(a);
    R.HeadTableOk(b);
    SameReplica(R.HeadTable(a), R.HeadTable(b), msgs);
    forall n | 0 <= n < |R.Mirror(b, msgs).emitted| ensures R.DeliveredAs(b, R.Mirror(b, msgs).emitted[n]) {
      R.ReplicaAgrees(b, msgs, n);
    }
  }
}
