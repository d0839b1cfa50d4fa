/** The single-producer single-consumer channel with a readiness flag
    (fuzzy_log_server/src/spsc.rs): sender and receiver as two threads whose atomic
    steps interleave in any way. The receiver registers for wake-ups once; until then
    nobody can set the flag. */
module SpscChannels {

  /** The counter is an unsigned 64-bit word and wraps. */
  const WORD: nat := 0x1_0000_0000_0000_0000

  function Wrap(x: int): nat {
    x % WORD
  }

  /** Where the sender is in send. */
  datatype Sender = SIdle | Pushed | Added(cnt: nat)

  /** Where the receiver is in try_recv, or in register. */
  datatype Receiver =
    | RIdle | Stole | Loaded(first: nat) | Cleared(first: nat) | Subtracted(first: nat, second: nat)
    | Seen(count: nat) | Told(count: nat)

  datatype State<V> = State(
    queue: seq<V>,
    pending: nat,
    registered: bool,
    ready: bool,
    sender: Sender,
    receiver: Receiver,
    sent: seq<V>,
    received: seq<V>)

  function Init<V>(): State<V> {
    State([], 0, false, false, SIdle, RIdle, [], [])
  }

  datatype Step<V> = Send(v: V) | Register | Sender | Receiver

  /** A thread that is idle may start; one that is not takes its next step. The queue
      stays shorter than the counter can count. */
  predicate Enabled<V>(s: State<V>, step: Step<V>) {
    match step
    case Send(_) => s.sender == SIdle && |s.queue| < WORD - 3
    case Register => s.receiver == RIdle && !s.registered
    case Sender => s.sender != SIdle
    case Receiver => true
  }

  /** push, then the two steps of inc. */
  function SenderStep<V>(s: State<V>): State<V> {
    match s.sender
    case SIdle => s
    case Pushed => s.(pending := Wrap(s.pending + 1), sender := Added(s.pending))
    case Added(cnt) => s.(ready := s.ready || (s.registered && cnt == 0), sender := SIdle)
  }

  /** steal, then the four steps of dec, where an empty queue ends the call; or the
      steps of register after it has read the counter. */
  function ReceiverStep<V>(s: State<V>): State<V> {
    match s.receiver
    case RIdle =>
      if s.queue == [] then s
      else s.(queue := s.queue[1..], received := s.received + [s.queue[0]], receiver := Stole)
    case Stole => s.(receiver := Loaded(s.pending))
    case Loaded(first) => s.(ready := s.ready && !(s.registered && first == 1), receiver := Cleared(first))
    case Cleared(first) => s.(pending := Wrap(s.pending - 1), receiver := Subtracted(first, s.pending))
    case Subtracted(first, second) =>
      s.(ready := s.ready || (s.registered && first == 1 && second > 1), receiver := RIdle)
    case Seen(count) => s.(ready := s.ready || count > 0, receiver := Told(count))
    case Told(_) => s.(registered := true, receiver := RIdle)
  }

  function Next<V>(s: State<V>, step: Step<V>): State<V> {
    match step
    case Send(v) => s.(queue := s.queue + [v], sent := s.sent + [v], sender := Pushed)
    case Register => s.(receiver := Seen(s.pending))
    case Sender => SenderStep(s)
    case Receiver => ReceiverStep(s)
  }

  // ---------------------------------------------------------------------------
  // Counting and order, registered or not

  /** The count without wrapping: queued, plus taken but not yet subtracted, less
      pushed but not yet added. It can be -1 for a moment. */
  function Count<V>(s: State<V>): int {
    |s.queue| + (if s.receiver.Stole? || s.receiver.Loaded? || s.receiver.Cleared? then 1 else 0)
      - (if s.sender == Pushed then 1 else 0)
  }

  predicate Counted<V(==)>(s: State<V>) {
    && s.sent == s.received + s.queue && |s.queue| < WORD - 2 && s.pending == Wrap(Count(s))
    && (s.receiver.Seen? || s.receiver.Told? ==> !s.registered)
    && (!s.registered ==> (s.ready <==> s.receiver.Told? && s.receiver.count > 0))
  }

  lemma WrapSmall(x: int)
    requires -1 <= x < WORD - 1
    ensures Wrap(x) == if x == -1 then WORD - 1 else x
    ensures Wrap(Wrap(x) + 1) == Wrap(x + 1) && Wrap(Wrap(x) - 1) == Wrap(x - 1)
  {
  }

  lemma SenderCounted<V>(s: State<V>)
    requires Counted(s)
    ensures Counted(SenderStep(s))
  {
    hide Wrap;
    WrapSmall(Count(s));
  }

  lemma ReceiverCounted<V>(s: State<V>)
    requires Counted(s)
    ensures Counted(ReceiverStep(s))
  {
    hide Wrap;
    WrapSmall(Count(s));
    if s.receiver.RIdle? && s.queue != [] {
      assert s.queue == [s.queue[0]] + s.queue[1..];
    }
  }

  // ---------------------------------------------------------------------------
  // The flag of a registered channel

  /** Something counted is announced, or the sender is about to announce it. */
  predicate Announced<V>(s: State<V>) {
    Count(s) > 0 ==> s.ready || s.sender == Added(0)
  }

  predicate FlagInv<V>(s: State<V>) {
    match s.receiver
    case Loaded(first) => Announced(s) && (first == 1 ==> Count(s) >= 1)
    case Cleared(first) => if first == 1 then Count(s) >= 1 else Announced(s)
    case Subtracted(first, second) => Announced(s) || (first == 1 && second > 1)
    case _ => Announced(s)
  }

  predicate Inv<V(==)>(s: State<V>) {
    Counted(s) && s.registered && FlagInv(s)
  }

  lemma SenderInv<V>(s: State<V>)
    requires Inv(s)
    ensures Inv(SenderStep(s))
  {
    hide Wrap;
    SenderCounted(s);
    WrapSmall(Count(s));
  }

  lemma ReceiverInv<V>(s: State<V>)
    requires Inv(s)
    ensures Inv(ReceiverStep(s))
  {
    hide Wrap;
    ReceiverCounted(s);
    WrapSmall(Count(s));
  }

  /** Every atomic step of either thread keeps the count, and the flag's invariant once
      the channel is registered. */
  lemma StepInv<V>(s: State<V>, step: Step<V>)
    requires Counted(s) && Enabled(s, step)
    ensures Counted(Next(s, step)) && (Inv(s) ==> Inv(Next(s, step)))
  {
    hide Wrap, SenderStep, ReceiverStep;
    match step
    case Send(v) =>
    case Register =>
    case Sender =>
      SenderCounted(s);
      if Inv(s) { SenderInv(s); }
    case Receiver =>
      ReceiverCounted(s);
      if Inv(s) { ReceiverInv(s); }
  }

  // ---------------------------------------------------------------------------
  // Every run

  function Run<V>(s: State<V>, steps: seq<Step<V>>): State<V> {
    if steps == [] then s else Next(Run(s, steps[..|steps| - 1]), steps[|steps| - 1])
  }

  ghost predicate Follows<V>(s: State<V>, steps: seq<Step<V>>) {
    steps == [] ||
    (Follows(s, steps[..|steps| - 1]) && Enabled(Run(s, steps[..|steps| - 1]), steps[|steps| - 1]))
  }

  lemma {:induction false} RunInv<V>(s: State<V>, steps: seq<Step<V>>)
    requires Counted(s) && Follows(s, steps)
    ensures Counted(Run(s, steps)) && (Inv(s) ==> Inv(Run(s, steps)))
  {
    hide Counted, Inv, Next;
    if steps != [] {
      RunInv(s, steps[..|steps| - 1]);
      StepInv(Run(s, steps[..|steps| - 1]), steps[|steps| - 1]);
    }
  }

  /** At rest the counter is the queue's length, and a queue that is not empty is
      announced. */
  predicate Good<V>(s: State<V>) {
    s.sender == SIdle && s.receiver == RIdle ==> s.pending == |s.queue| && (s.pending > 0 ==> s.ready)
  }

  lemma AtRest<V>(s: State<V>)
    requires Inv(s)
    ensures Good(s)
  {
    WrapSmall(Count(s));
  }

  /** In every run of a channel whatever was received is what was sent, in order, up to
      what is still queued, and at rest the counter is the queue's length. */
  lemma InOrder<V>(steps: seq<Step<V>>)
    requires Follows(Init<V>(), steps)
    ensures var s := Run(Init<V>(), steps);
      s.sent == s.received + s.queue && (s.sender == SIdle && s.receiver == RIdle ==> s.pending == |s.queue|)
  {
    hide Run, Follows, Next;
    RunInv(Init<V>(), steps);
    WrapSmall(Count(Run(Init<V>(), steps)));
  }

  /** A registered channel at rest whose flag is right. */
  predicate Registered<V(==)>(s: State<V>) {
    && s.registered && s.sender == SIdle && s.receiver == RIdle && s.sent == s.received + s.queue
    && |s.queue| < WORD - 2 && Good(s)
  }

  /** In every run from there, whenever neither thread is inside a call, the counter is
      the queue's length and a queue that is not empty is announced. */
  lemma NoLostWakeUp<V>(start: State<V>, steps: seq<Step<V>>)
    requires Registered(start) && Follows(start, steps)
    ensures Good(Run(start, steps)) && Run(start, steps).sent == Run(start, steps).received + Run(start, steps).queue
  {
    hide Run, Follows, Next;
    WrapSmall(Count(start));
    RunInv(start, steps);
    AtRest(Run(start, steps));
  }

  // ---------------------------------------------------------------------------
  // When the flag goes down again

  function Steps<V>(s: State<V>, n: nat): State<V>
    decreases n
  {
    if n == 0 then s else Steps(ReceiverStep(s), n - 1)
  }

  /** A registered channel at rest whose flag is up exactly when there is something. */
  predicate Exact<V(==)>(s: State<V>) {
    Registered(s) && (s.ready <==> s.queue != [])
  }

  /** A receive that no send overlaps takes the first value and leaves the flag up
      exactly when something is left. */
  lemma ReceiveAlone<V>(s: State<V>)
    requires Exact(s) && s.queue != []
    ensures var t := Steps(s, 5);
      Exact(t) && t.queue == s.queue[1..] && t.received == s.received + [s.queue[0]] && t.sent == s.sent
  {
    hide Wrap;
    WrapSmall(|s.queue|);
    WrapSmall(|s.queue| - 1);
    var a := ReceiverStep(s);
    var b := ReceiverStep(a);
    var c := ReceiverStep(b);
    var d := ReceiverStep(c);
    var e := ReceiverStep(d);
    assert Steps(d, 1) == Steps(e, 0) == e;
    assert Steps(s, 5) == Steps(a, 4) == Steps(b, 3) == Steps(c, 2) == Steps(d, 1);
    assert s.queue == [s.queue[0]] + s.queue[1..];
  }

  /** A send that no receive overlaps puts the value last and the flag up. */
  lemma SendAlone<V>(s: State<V>, v: V)
    requires Exact(s) && Enabled(s, Send(v))
    ensures var t := SenderStep(SenderStep(Next(s, Send(v))));
      Exact(t) && t.queue == s.queue + [v] && t.sent == s.sent + [v] && t.received == s.received
  {
    hide Wrap;
    WrapSmall(|s.queue|);
    WrapSmall(|s.queue| + 1);
  }

  /** The flag is up, or the sender is about to put it up. */
  predicate Up<V>(s: State<V>) {
    s.ready || s.sender == Added(0)
  }

  /** The flag is up, or about to be, and nothing is there. */
  predicate Stale<V>(s: State<V>) {
    Count(s) <= 0 && Up(s)
  }

  predicate SenderOnly<V>(steps: seq<Step<V>>) {
    forall i :: 0 <= i < |steps| ==> steps[i].Send? || steps[i].Sender?
  }

  /** What the sender can do while the receiver stands still. */
  lemma {:induction false} SenderRuns<V>(s: State<V>, steps: seq<Step<V>>)
    requires Counted(s) && s.registered && Follows(s, steps) && SenderOnly(steps)
    ensures var t := Run(s, steps);
      && Counted(t) && t.registered && t.receiver == s.receiver && Count(s) <= Count(t)
      && (Up(s) ==> Up(t))
      && (Count(t) == Count(s) ==> (Up(t) <==> Up(s)))
      && (Count(s) <= 0 < Count(t) ==> Up(t))
      && (Count(t) <= 0 && Up(t) ==> Up(s))
  {
    hide Wrap, Counted;
    if steps != [] {
      var init, step := steps[..|steps| - 1], steps[|steps| - 1];
      SenderRuns(s, init);
      SenderMoves(Run(s, init), step);
    }
  }

  lemma SenderMoves<V>(s: State<V>, step: Step<V>)
    requires Counted(s) && s.registered && Enabled(s, step) && (step.Send? || step.Sender?)
    ensures var t := Next(s, step);
      && Counted(t) && t.registered && t.receiver == s.receiver
      && (Count(t) == Count(s) || Count(t) == Count(s) + 1)
      && (Count(t) == Count(s) ==> (Up(t) <==> Up(s)))
      && (Count(t) == Count(s) + 1 ==> (Up(t) <==> Up(s) || Count(s) == 0))
  {
    hide Wrap;
    StepInv(s, step);
    WrapSmall(Count(s));
  }

  /** A receive that ends with nothing counted leaves the flag up, or about to go up,
      exactly when it overtook the send of what it took: that send was counted and had
      still to announce itself as the receiver cleared the flag, or it was not counted
      when the receiver looked and was counted before the receiver subtracted. The
      sender's steps lie between those of the receiver in any way. */
  lemma StaleExactly<V>(s: State<V>, p: seq<Step<V>>, q: seq<Step<V>>, r: seq<Step<V>>, z: seq<Step<V>>)
    requires Inv(s) && s.receiver == RIdle && s.queue != [] && !Stale(s)
    requires SenderOnly(p) && SenderOnly(q) && SenderOnly(r) && SenderOnly(z)
    requires var a := ReceiverStep(s); Follows(a, p)
    requires var b := ReceiverStep(Run(ReceiverStep(s), p)); Follows(b, q)
    requires var c := ReceiverStep(Run(ReceiverStep(Run(ReceiverStep(s), p)), q)); Follows(c, r)
    requires var d := ReceiverStep(Run(ReceiverStep(Run(ReceiverStep(Run(ReceiverStep(s), p)), q)), r)); Follows(d, z)
    ensures var looked := Run(ReceiverStep(s), p);
      var clearing := Run(ReceiverStep(looked), q);
      var subtracting := Run(ReceiverStep(clearing), r);
      var end := ReceiverStep(Run(ReceiverStep(subtracting), z));
      && end.receiver == RIdle
      && (Count(end) <= 0 ==>
            (Up(end) <==>
             || (looked.pending == 1 && clearing.sender == Added(0))
             || (looked.pending == 0 && subtracting.pending == 1)))
  {
    hide Wrap, Run, Follows, Counted;
    var stolen := ReceiverStep(s);
    Taking(s);
    SenderRuns(stolen, p);
    var looked := Run(stolen, p);
    Looking(looked);
    SenderRuns(ReceiverStep(looked), q);
    var clearing := Run(ReceiverStep(looked), q);
    Clearing(clearing);
    SenderRuns(ReceiverStep(clearing), r);
    var subtracting := Run(ReceiverStep(clearing), r);
    Subtracting(subtracting);
    SenderRuns(ReceiverStep(subtracting), z);
  }

  /** The receiver takes a value whose send has been counted and not announced, and the
      flag goes up over an empty queue. */
  lemma StaleFlag(v: nat) returns (s: State<nat>, steps: seq<Step<nat>>)
    ensures Exact(s) && Follows(s, steps)
    ensures var t := Run(s, steps); t.sender == SIdle && t.receiver == RIdle && t.queue == [] && t.ready
  {
    s := State([], 0, true, false, SIdle, RIdle, [], []);
    var s1: seq<Step<nat>> := [Send(v)];
    var s2 := s1 + [Step.Sender];
    var s3 := s2 + [Step.Receiver];
    var s4 := s3 + [Step.Receiver];
    var s5 := s4 + [Step.Receiver];
    var s6 := s5 + [Step.Receiver];
    var s7 := s6 + [Step.Receiver];
    var s8 := s7 + [Step.Sender];
    assert s1[..0] == [] && s2[..1] == s1 && s3[..2] == s2 && s4[..3] == s3 && s5[..4] == s4 && s6[..5] == s5;
    assert s7[..6] == s6 && s8[..7] == s7;
    assert Run(s, s1) == State([v], 0, true, false, Pushed, RIdle, [v], []);
    assert Run(s, s2) == State([v], 1, true, false, Added(0), RIdle, [v], []);
    assert Run(s, s3) == State([], 1, true, false, Added(0), Stole, [v], [v]);
    assert Run(s, s4) == State([], 1, true, false, Added(0), Loaded(1), [v], [v]);
    assert Run(s, s5) == State([], 1, true, false, Added(0), Cleared(1), [v], [v]);
    assert Run(s, s6) == State([], 0, true, false, Added(0), Subtracted(1, 1), [v], [v]);
    assert Run(s, s7) == State([], 0, true, false, Added(0), RIdle, [v], [v]);
    assert Run(s, s8) == State([], 0, true, true, SIdle, RIdle, [v], [v]);
    assert Follows(s, s4) by { assert Follows(s, s1) && Follows(s, s2) && Follows(s, s3); }
    assert Follows(s, s8) by { assert Follows(s, s5) && Follows(s, s6) && Follows(s, s7); }
    steps := s8;
  }

  lemma Taking<V>(s: State<V>)
    requires Counted(s) && s.registered && s.receiver == RIdle && s.queue != []
    ensures var t := ReceiverStep(s);
      && Counted(t) && t.registered && t.receiver == Stole && Count(t) == Count(s) && (Up(t) <==> Up(s))
  {
    hide Wrap;
    ReceiverCounted(s);
  }

  lemma Looking<V>(s: State<V>)
    requires Counted(s) && s.registered && s.receiver == Stole
    ensures var t := ReceiverStep(s);
      && Counted(t) && t.registered && t.receiver == Loaded(s.pending) && Count(t) == Count(s) == s.pending
      && (Up(t) <==> Up(s))
  {
    hide Wrap;
    ReceiverCounted(s);
    WrapSmall(Count(s));
  }

  lemma Clearing<V>(s: State<V>)
    requires Counted(s) && s.registered && s.receiver.Loaded?
    ensures var t := ReceiverStep(s);
      && Counted(t) && t.registered && t.receiver == Cleared(s.receiver.first) && Count(t) == Count(s)
      && (Up(t) <==> (s.sender == Added(0) || (s.ready && s.receiver.first != 1)))
  {
    hide Wrap;
    ReceiverCounted(s);
  }

  lemma Subtracting<V>(s: State<V>)
    requires Counted(s) && s.registered && s.receiver.Cleared?
    ensures var t := ReceiverStep(s);
      && Counted(t) && t.registered && t.receiver == Subtracted(s.receiver.first, s.pending)
      && Count(t) == Count(s) - 1 && s.pending == Count(s) && (Up(t) <==> Up(s))
  {
    hide Wrap;
    ReceiverCounted(s);
    WrapSmall(Count(s));
  }

  // ---------------------------------------------------------------------------
  // Registration

  /** No wake-up is lost in any run from s. */
  ghost predicate Safe<V(!new)>(s: State<V>) {
    forall steps: seq<Step<V>> :: Follows(s, steps) ==> Good(Run(s, steps))
  }

  /** Letting the sender finish its call. */
  lemma SenderFinishes<V>(s: State<V>) returns (steps: seq<Step<V>>)
    requires Counted(s) && s.registered && s.receiver == RIdle && Count(s) > 0 && !s.ready && s.sender != Added(0)
    ensures Follows(s, steps) && !Good(Run(s, steps))
  {
    WrapSmall(Count(s));
    var one: seq<Step<V>> := [Step.Sender];
    var two := one + [Step.Sender];
    assert one[..0] == [] && two[..1] == one;
    assert Run(s, []) == s && Follows(s, []);
    match s.sender
    case SIdle => steps := [];
    case Added(_) =>
      assert Run(s, one) == SenderStep(s);
      steps := one;
    case Pushed =>
      var mid := SenderStep(s);
      assert Run(s, one) == mid && Follows(s, one);
      assert mid.sender == Added(s.pending) && s.pending == Count(s);
      SenderCounted(s);
      SenderCounted(mid);
      assert Run(s, two) == SenderStep(mid);
      WrapSmall(Count(SenderStep(mid)));
      steps := two;
  }

  /** The last step of registering: the channel is then safe exactly when what is
      counted was already counted as registering began, or the sender still has to
      announce it. */
  lemma RegisteredExactly<V(!new)>(s: State<V>)
    requires Counted(s) && s.receiver.Told?
    ensures Safe(Next(s, Step.Receiver)) <==> (Count(s) > 0 ==> s.receiver.count > 0 || s.sender == Added(0))
  {
    hide Wrap, Run, Follows;
    var t := Next(s, Step.Receiver);
    ReceiverCounted(s);
    if Announced(t) {
      forall steps: seq<Step<V>> | Follows(t, steps) ensures Good(Run(t, steps)) {
        RunInv(t, steps);
        AtRest(Run(t, steps));
      }
    } else {
      var steps := SenderFinishes(t);
    }
  }

  /** Registering while no send is under way is safe. */
  lemma QuietRegistration<V>(s: State<V>)
    requires Counted(s) && !s.registered && s.receiver == RIdle && s.sender == SIdle
    ensures var t := Next(Next(Next(s, Register), Step.Receiver), Step.Receiver);
      Registered(t) && t.queue == s.queue
  {
    WrapSmall(Count(s));
  }

  /** A send that overlaps registration can go unannounced: the counter is read before
      it is raised, and the sender looks for the registration before it is there. */
  lemma RegistrationRace(v: nat)
    ensures exists steps: seq<Step<nat>> :: Follows(Init<nat>(), steps) && !Good(Run(Init<nat>(), steps))
  {
    var s1: seq<Step<nat>> := [Register];
    var s2 := s1 + [Send(v)];
    var s3 := s2 + [Step.Sender];
    var s4 := s3 + [Step.Sender];
    var s5 := s4 + [Step.Receiver];
    var s6 := s5 + [Step.Receiver];
    assert s1[..0] == [] && s2[..1] == s1 && s3[..2] == s2 && s4[..3] == s3 && s5[..4] == s4 && s6[..5] == s5;
    assert Run(Init<nat>(), s1) == State([], 0, false, false, SIdle, Seen(0), [], []);
    assert Run(Init<nat>(), s2) == State([v], 0, false, false, Pushed, Seen(0), [v], []);
    assert Run(Init<nat>(), s3) == State([v], 1, false, false, Added(0), Seen(0), [v], []);
    assert Run(Init<nat>(), s4) == State([v], 1, false, false, SIdle, Seen(0), [v], []);
    assert Run(Init<nat>(), s5) == State([v], 1, false, false, SIdle, Told(0), [v], []);
    assert Run(Init<nat>(), s6) == State([v], 1, true, false, SIdle, RIdle, [v], []);
    assert Follows(Init<nat>(), []);
    assert Follows(Init<nat>(), s1);
    assert Follows(Init<nat>(), s2);
    assert Follows(Init<nat>(), s3);
    assert Follows(Init<nat>(), s4);
    assert Follows(Init<nat>(), s5);
    assert Follows(Init<nat>(), s6);
  }

  /** The counter does wrap for a moment: the receiver can take and subtract what the
      sender has pushed and not yet added. */
  lemma CounterWraps(v: nat)
    ensures exists steps: seq<Step<nat>> :: Follows(Init<nat>(), steps) && Run(Init<nat>(), steps).pending == WORD - 1
  {
    var s1: seq<Step<nat>> := [Send(v)];
    var s2 := s1 + [Step.Receiver];
    var s3 := s2 + [Step.Receiver];
    var s4 := s3 + [Step.Receiver];
    var s5 := s4 + [Step.Receiver];
    assert s1[..0] == [] && s2[..1] == s1 && s3[..2] == s2 && s4[..3] == s3 && s5[..4] == s4;
    assert Run(Init<nat>(), s1) == State([v], 0, false, false, Pushed, RIdle, [v], []);
    assert Run(Init<nat>(), s2) == State([], 0, false, false, Pushed, Stole, [v], [v]);
    assert Run(Init<nat>(), s3) == State([], 0, false, false, Pushed, Loaded(0), [v], [v]);
    assert Run(Init<nat>(), s4) == State([], 0, false, false, Pushed, Cleared(0), [v], [v]);
    assert Follows(Init<nat>(), []);
    assert Follows(Init<nat>(), s1);
    assert Follows(Init<nat>(), s2);
    assert Follows(Init<nat>(), s3);
    assert Follows(Init<nat>(), s4);
    assert Follows(Init<nat>(), s5);
  }
}
