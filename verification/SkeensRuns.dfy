/** What runs of the system keep: chains only grow, and what a client has decided or
    sent stays. */
module SkeensRuns {
  import opened SkeensOrder
  import opened SkeensChain
  import opened SkeensEffects
  import opened SkeensSystem
  import opened SkeensTheorems

  // ---------------------------------------------------------------------------
  // Chains only grow

  ghost predicate Grown(a: Chain, b: Chain) {
    a.accepted <= b.accepted && a.history <= b.history
  }

  lemma R1Grows(ch: Chain, kind: Kind, id: Id)
    requires id !in ch.status
    ensures Grown(ch, AddMulti(ch, kind, id).0)
  {
  }

  lemma R2Grows(ch: Chain, id: Id, m: Time)
    requires Core(ch) && Awaiting(ch, id)
    ensures ch.len > 0 && Grown(ch, FinishMulti(ch, id, m))
  {
    hide Core, FinishMulti;
    CoreLen(ch);
    FinishMultiPending(ch, id, m);
  }

  lemma OneGrows(ch: Chain, id: Id, t: Time)
    requires id !in ch.status && (NeedSingleAt(ch, t) ==> ch.queue != [])
    ensures Grown(ch, HandleSingle(ch, id, t))
  {
  }

  lemma StepGrows(s: Sys, step: Step, c: ChainId)
    requires SysInv(s) && Enabled(s, step) && Safe(s, step)
    ensures Grown(At(s.chains, c), At(Next(s, step).chains, c))
  {
    hide SysInv, Core, AddMulti, FinishMulti, HandleSingle;
    InvChain(s, c);
    var ch := At(s.chains, c);
    if step.Deliver? && step.msg.chain == c {
      match step.msg
      case R1(id, _, kind) => R1Grows(ch, kind, id);
      case R2(id, _, m) => R2Grows(ch, id, m);
      case One(id, _, t) => OneGrows(ch, id, t);
      case Ack(_, _, _) =>
    }
  }

  lemma {:induction false} RunGrows(s: Sys, steps: seq<Step>, t: Sys, c: ChainId)
    requires SysInv(s) && Follows(s, steps, t)
    ensures SysInv(t) && Grown(At(s.chains, c), At(t.chains, c))
    decreases |steps|
  {
    hide SysInv, Safe;
    if steps != [] {
      StepInv(s, steps[0]);
      StepGrows(s, steps[0], c);
      RunGrows(Next(s, steps[0]), steps[1..], t, c);
    }
  }

  lemma {:induction false} FollowsTrans(s: Sys, steps: seq<Step>, t: Sys, more: seq<Step>, u: Sys)
    requires Follows(s, steps, t) && Follows(t, more, u)
    ensures Follows(s, steps + more, u)
    decreases |steps|
  {
    hide Enabled, Safe;
    if steps == [] {
      assert steps + more == more;
    } else {
      FollowsTrans(Next(s, steps[0]), steps[1..], t, more, u);
      assert (steps + more)[1..] == steps[1..] + more;
    }
  }

  lemma StillReachable(s: Sys, steps: seq<Step>, t: Sys)
    requires Reachable(s) && Follows(s, steps, t)
    ensures Reachable(t)
  {
    hide Follows;
    var before :| Follows(INIT, before, s);
    FollowsTrans(INIT, before, s, steps, t);
  }

  // ---------------------------------------------------------------------------
  // Decisions stand

  /** Ids are not reused, so a decided write and a sent single stay what they are. */
  ghost predicate Keeps(s: Sys, t: Sys) {
    && (forall x :: x in s.coords && s.coords[x].Finishing? ==> x in t.coords && t.coords[x] == s.coords[x])
    && (forall y :: y in s.singles ==> y in t.singles && t.singles[y] == s.singles[y])
  }

  lemma StepKeeps(s: Sys, step: Step)
    requires Enabled(s, step) && Safe(s, step)
    ensures Keeps(s, Next(s, step))
  {
  }

  lemma {:induction false} RunKeeps(s: Sys, steps: seq<Step>, t: Sys)
    requires Follows(s, steps, t)
    ensures Keeps(s, t)
    decreases |steps|
  {
    hide Enabled, Safe, Next;
    if steps != [] {
      StepKeeps(s, steps[0]);
      RunKeeps(Next(s, steps[0]), steps[1..], t);
    }
  }
}
