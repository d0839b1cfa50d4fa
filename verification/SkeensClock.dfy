/** The clocks are 64-bit counters. No run overflows one before it has taken about
    2^64 steps beyond the largest timestamp a client made up. */
module SkeensClock {
  import opened SkeensOrder
  import opened SkeensChain
  import opened SkeensSystem
  import opened SkeensTheorems
  import ChainHeads

  ghost predicate ClocksBelow(chains: map<ChainId, Chain>, b: nat) {
    forall c :: At(chains, c).nextTs <= b
  }

  lemma ClockSet(chains: map<ChainId, Chain>, b: nat, c: ChainId, ch: Chain, now: nat)
    requires ClocksBelow(chains, b) && b <= now && ch.nextTs <= now
    ensures ClocksBelow(chains[c := ch], now)
  {
    var all := chains[c := ch];
    forall d ensures At(all, d).nextTs <= now {
      assert At(chains, d).nextTs <= b;
    }
  }

  ghost predicate StampBelow(m: Msg, b: nat) {
    match m
    case R1(_, _, _) => true
    case Ack(_, _, ts) => ts < b
    case R2(_, _, max) => max < b
    case One(_, _, t) => t < b
  }

  /** Every clock is at most b, and every timestamp in use is below it. */
  ghost predicate Below(s: Sys, b: nat) {
    && ClocksBelow(s.chains, b)
    && (forall m :: m in s.net ==> StampBelow(m, b))
    && (forall id, c :: id in s.coords && c in s.coords[id].acks ==> s.coords[id].acks[c] < b)
  }

  lemma {:induction false} FlushClock(ch: Chain)
    requires ch.len > 0
    ensures Flush(ch).nextTs == ch.nextTs
    decreases |ch.heap|
  {
    if CanFlush(ch) {
      FlushClock(FlushOne(ch));
    }
  }

  lemma FinishClock(ch: Chain, id: Id, m: Time)
    requires ch.len > 0 && Awaiting(ch, id)
    ensures FinishMulti(ch, id, m).nextTs == Bump(ch, m).nextTs
  {
    PopReadyFrame(SetAt(Bump(ch, m), ch.status[id].node, m));
    FlushClock(SetMax(ch, id, m));
  }

  lemma ClockAt(s: Sys, c: ChainId, b: nat)
    requires Below(s, b)
    ensures At(s.chains, c).nextTs <= b
  {
  }

  lemma BeginBelow(s: Sys, step: Step, b: nat)
    requires Below(s, b) && Enabled(s, step) && !step.Deliver? && (step.BeginSingle? ==> step.ts < b)
    ensures Below(Next(s, step), b)
  {
  }

  lemma R1Below(s: Sys, step: Step, b: nat)
    requires Below(s, b) && Enabled(s, step) && Safe(s, step) && step.Deliver? && step.msg.R1?
    ensures Below(Next(s, step), b + 1)
  {
    hide ClocksBelow;
    var ch := At(s.chains, step.msg.chain);
    assert ch.nextTs <= b by { ClockAt(s, step.msg.chain, b); }
    ClockSet(s.chains, b, step.msg.chain, AddMulti(ch, step.msg.kind, step.msg.id).0, b + 1);
  }

  lemma AckBelow(s: Sys, step: Step, b: nat)
    requires Below(s, b) && Enabled(s, step) && Safe(s, step) && step.Deliver? && step.msg.Ack?
    ensures Below(Next(s, step), b)
  {
    hide ClocksBelow;
    var acks := Next(s, step).coords[step.msg.id].acks;
    assert StampBelow(step.msg, b);
    assert forall c :: c in acks ==> acks[c] < b;
  }

  lemma R2Below(s: Sys, step: Step, b: nat)
    requires Below(s, b) && Enabled(s, step) && Safe(s, step) && step.Deliver? && step.msg.R2?
    ensures Below(Next(s, step), b)
  {
    hide FinishMulti, Awaiting, ClocksBelow;
    var ch := At(s.chains, step.msg.chain);
    ClockAt(s, step.msg.chain, b);
    assert StampBelow(step.msg, b);
    FinishClock(ch, step.msg.id, step.msg.max);
    ClockSet(s.chains, b, step.msg.chain, FinishMulti(ch, step.msg.id, step.msg.max), b);
  }

  lemma OneBelow(s: Sys, step: Step, b: nat)
    requires Below(s, b) && Enabled(s, step) && Safe(s, step) && step.Deliver? && step.msg.One?
    ensures Below(Next(s, step), b + 1)
  {
    hide ClocksBelow;
    var ch := At(s.chains, step.msg.chain);
    ClockAt(s, step.msg.chain, b);
    assert StampBelow(step.msg, b);
    ClockSet(s.chains, b, step.msg.chain, HandleSingle(ch, step.msg.id, step.msg.ts), b + 1);
  }

  lemma StepBelow(s: Sys, step: Step, b: nat)
    requires Below(s, b) && Enabled(s, step) && Safe(s, step) && (step.BeginSingle? ==> step.ts < b)
    ensures Below(Next(s, step), b + 1)
  {
    hide Next, Safe;
    if !step.Deliver? {
      BeginBelow(s, step, b);
    } else {
      match step.msg
      case R1(_, _, _) => R1Below(s, step, b);
      case Ack(_, _, _) => AckBelow(s, step, b);
      case R2(_, _, _) => R2Below(s, step, b);
      case One(_, _, _) => OneBelow(s, step, b);
    }
  }

  /** The clients' own timestamps for single appends are below b. */
  ghost predicate SinglesBelow(steps: seq<Step>, b: nat) {
    forall k :: 0 <= k < |steps| && steps[k].BeginSingle? ==> steps[k].ts < b
  }

  lemma {:induction false} RunBelow(s: Sys, steps: seq<Step>, t: Sys, b: nat)
    requires Below(s, b) && Follows(s, steps, t) && SinglesBelow(steps, b)
    ensures Below(t, b + |steps|)
    decreases |steps|
  {
    hide Below, Enabled, Safe, Next;
    if steps != [] {
      StepBelow(s, steps[0], b);
      RunBelow(Next(s, steps[0]), steps[1..], t, b + 1);
    }
  }

  /** The clock conditions of the in-place chain when it takes this step. */
  ghost predicate Fits(s: Sys, step: Step) {
    step.Deliver? ==>
      var clock := At(s.chains, step.msg.chain).nextTs;
      match step.msg
      case R1(_, _, _) => clock < ChainHeads.MAX_TIME
      case Ack(_, _, _) => true
      case R2(_, _, m) => m < ChainHeads.MAX_TIME
      case One(_, _, t) => clock < ChainHeads.MAX_TIME && t < ChainHeads.MAX_TIME - 1
  }

  /** As long as the steps taken and the clients' own timestamps together stay below
      2^64, the next step overflows no clock. */
  lemma NoOverflow(steps: seq<Step>, s: Sys, step: Step, b: nat)
    requires Follows(INIT, steps, s) && Enabled(s, step)
    requires 0 < b && SinglesBelow(steps, b) && b + |steps| < ChainHeads.MAX_TIME
    ensures Fits(s, step)
  {
    hide Follows;
    RunBelow(INIT, steps, s, b);
    assert step.Deliver? ==> StampBelow(step.msg, b + |steps|);
  }
}
