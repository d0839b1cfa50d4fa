# FuzzyLog in Dafny

FuzzyLog is a partially ordered, replicated log. Its entries live on many chains;
a multi-append writes one entry to several chains atomically, and a snapshot reads
the ends of several chains at one point of the order. This project models the code
that makes that work and proves what it promises, for every run of the modelled code.

## What is modelled

**Skeen's ordering.** A chain on its head server keeps a logical clock, a queue of
appends that wait for their final timestamp, a heap of appends that have one, and a
status map. `SkeensOrder.dfy` has the two comparisons of the source and the key order
they implement; `SkeensChain.dfy` has every step of a chain on values, with its
invariant; `ChainHead.dfy` is the same chain updated in place and refines those steps;
`VecDequeMap.dfy` is its queue. `HeadServer.dfy` runs the two rounds over all the
chains of one server. `SkeensSystem.dfy` puts any number of chains, clients and
messages in flight together, `SkeensEffects.dfy` says what a chain step does to the
other entries, and `SkeensTheorems.dfy` has the results about every reachable state:
agreement between chains, no cycles, consistent snapshots, the place of single
appends, conservation, and that nothing waits for ever. `SkeensRuns.dfy` says what runs
keep, `SkeensSingles.dfy` where a single append lands among the writes its client knows
to be decided, and `SkeensClock.dfy` bounds the clocks of a run, so that the 64-bit
counters do not overflow.

**Replicas and recovery.** `Replica.dfy` takes the head's records in any arrival order
and proves that the state depends only on which records arrived; `ReplicaRuns.dfy`
puts a replica beside a head that goes on running; `ReplicaChain.dfy` is the in-place
form, and the test-and-set that hands a write from one recovering client to the next.

**The client.** `StoreClient.dfy` is the client side of a two-round write: per server
packets, timestamps collected per chain, the queue of writes ready for round two, and
the reports to the application. Each write has a ghost life that records what arrived,
what was sent and what was reported. `ClientCoordinator.dfy` proves that this client is
the coordinator of `SkeensSystem.dfy`, and `ServerBatch.dfy` that a head server's
packets are runs of that system, so the results about the system are about them.
`StoreFront.dfy` is the rest of the client: writes to a single server, reads, and the
dispatch of messages. `WriteStorage.dfy` is the storage the chains of one server share
for a write, from which the answer to round two goes out. `EndToEnd.dfy` puts all of it
together: what a client reports is where the chains put it, and where its singles land.

**Smaller cores.** `Ranges.dfy` and `RangeTree.dfy` are the interval map over all
64-bit numbers. `Replicator.dfy` holds entries back until their dependencies are
written. `RadixLevels.dfy`, `RadixArena.dfy`, `Trie.dfy` and `ByteTrie.dfy` are the
append-only trie and byte allocator with their shortcuts into the last segment of each
level; segments are named by their position in the list of allocations.
`DoubleBuffer.dfy` is the write stream of a connection. `Spsc.dfy` is the channel with a
readiness flag, as the interleaved atomic steps of two threads. `Options.dfy` has the
option type.

Packets are datatypes, stored bytes are ids, and what the network, the socket or the
memory allocator decides is a parameter or an arbitrary choice.

## Where the code and its promises differ

- `Range::trim_out` starts the last of three pieces at `other_first + 1`, where its
  comment and its unit test (fuzzy_log_util/src/range_tree.rs:518-525) have the end of
  the other range plus one. `Ranges.TrimOutPartitions` gives the exact condition, and
  the sweep of `set_range_as` is shown never to reach the case.
- A shortcut of the trie above the last level is not used up exactly when the index is
  aligned for that level; `Tries.UsedUpExactly` says when it is, `Tries.UsedUpUnaligned`
  has a counterexample, and the code's debug assertions are shown to hold.
- The socket writer's debug assertion that the first buffer is not empty
  (reactor/src/lib.rs:711) fails after a message larger than both buffers is added to
  an idle connection; `WriteStreams.DoubleBuffer.Fill` has the exact condition.
- A replicator entry that waits for index i of a chain is let go when index i itself
  is acknowledged, and not when a later index is; `Replicators.HeldExactly` has the exact
  condition, `Replicators.HeldThoughCovered` a run.
- The channel announces what was sent only if a send does not overlap the receiver's
  registration: the counter is read (fuzzy_log_server/src/spsc.rs:105) before the
  readiness handle is there for the sender to find. `SpscChannels.RegisteredExactly` has
  the exact condition, `SpscChannels.RegistrationRace` a run that loses a wake-up.
- The channel's flag can stay up over an empty queue: a send that was counted but not
  announced when the receive cleared the flag, or counted between the receive's look and
  its subtraction, announces a value that is already taken
  (fuzzy_log_server/src/spsc.rs:131-167), and a receive that finds nothing leaves the flag. `SpscChannels.StaleExactly` has the exact overlaps,
  `SpscChannels.StaleFlag` a run; a receive on its own leaves the flag right.
- A single append can land before a multi-append that its own client already knew to be
  decided: a chain that has flushed another write with the very timestamp the single
  carries takes the single to be late enough and writes it at once.
  `SkeensSingles.SingleAfterDecided` has the exact condition, `SkeensSingles.SingleOvertakes`
  a run; after writes that were reported it always lands (`EndToEnd.SingleAfterReported`).
- A byte allocator asked for zero bytes at the end of a block hangs a new block into the
  tree without using it, so the debug assertion of the next append
  (fuzzy_log_server/src/byte_trie.rs:336-340) fails. `ByteTries.ByteTrie.Append` has the
  exact condition, `ByteTries.NothingAtBlockEnd` a run. Of an empty allocator, zero bytes
  also make the address of the last byte overflow (fuzzy_log_server/src/byte_trie.rs:287),
  where a build with checked arithmetic stops; the contract says when.
- Round one of a snapshot treats a separator as chain 0, round two skips it
  (fuzzy_log_server/src/ordering_thread.rs:442-452 and 691-695), so a separator in a
  snapshot's packet leaves an entry on chain 0 that never gets its final timestamp.
  `HeadServers.SeparatorStays` has the exact condition, `HeadServers.SeparatorLeft` a run.
- A write to a single server that is answered in parts is reported with the locations of
  the last packet only, not with those collected; `StoreFronts.AnsweredInParts` has two
  such packets, and the contract of `StoreFronts.StoreFront.OnSingleServer` says which
  locations are reported.
- The flush test lets a single append pass a waiting multi-append that was proposed the
  same timestamp; the clock never gives two entries of a chain the same one, so this
  cannot show.

## Model

| member | source | states |
|---|---|---|
| SkeensOrder.CmpIsKeyOrder | fuzzy_log_server/src/skeens.rs:1333-1457 | the heap comparison over all kinds of entries is one total order on (final timestamp, multi before single, id), with the earlier entry greater |
| SkeensOrder.HappensBeforeIsKeyOrder | fuzzy_log_server/src/skeens.rs:1158-1252 | the flush test is that order too, except for a single with the same timestamp as a waiting multi |
| SkeensOrder.TopExists | fuzzy_log_server/src/skeens.rs:1333-1457 | a non-empty heap with distinct ids has a first element that precedes all others |
| SkeensOrder.TopUnique | fuzzy_log_server/src/skeens.rs:1333-1457 | that element is unique, so peek and pop are determined |
| SkeensChain.EmptyInv | fuzzy_log_server/src/skeens.rs:80-90 | a new chain satisfies the invariant |
| SkeensChain.BumpCore | fuzzy_log_server/src/skeens.rs:280-282 | raising the clock keeps every part of the invariant |
| SkeensChain.BumpLeast | fuzzy_log_server/src/skeens.rs:280-282 | the clock is raised to the least value above the timestamp, and never lowered |
| SkeensChain.PushCore | fuzzy_log_server/src/skeens.rs:180-202 | queueing a fresh entry with the next timestamp and queue number keeps it |
| SkeensChain.SetAtCore | fuzzy_log_server/src/skeens.rs:299-307 | giving a waiting entry its final timestamp keeps it |
| SkeensChain.PopReadyCore | fuzzy_log_server/src/skeens.rs:313-318 | moving the finished front of the queue to the heap keeps it |
| SkeensChain.PopReadyShape | fuzzy_log_server/src/skeens.rs:313-318 | afterwards the queue's front still waits for its final timestamp |
| SkeensChain.FlushablePrecedes | fuzzy_log_server/src/skeens.rs:603-609 | what may be flushed precedes, in key order, everything queued, whatever timestamps that will get |
| SkeensChain.FlushOneCore | fuzzy_log_server/src/skeens.rs:341-353 | delivering the heap's first entry keeps order, indices, conservation and the clock bounds |
| SkeensChain.FlushCore | fuzzy_log_server/src/skeens.rs:339-359 | the whole flush keeps them, and holds back only what a waiting entry could still precede |
| SkeensChain.AddMultiInv | fuzzy_log_server/src/skeens.rs:157-267 | round one of a multi-append or snapshot keeps the invariant |
| SkeensChain.HandleSingleInv | fuzzy_log_server/src/ordering_thread.rs:302-321 | a single append, queued or written directly, keeps it, and the assertion that the queue is not empty holds when it is queued |
| SkeensChain.DirectAppendInv | fuzzy_log_server/src/skeens.rs:137-147 | writing a single directly keeps it: nothing still pending may come before it with a smaller timestamp than its client had seen |
| SkeensChain.SetMaxCore | fuzzy_log_server/src/skeens.rs:270-325 | round two keeps it, with a waiting front |
| SkeensChain.FinishMultiInv | fuzzy_log_server/src/ordering_thread.rs:86-131 | round two followed by the flush keeps it |
| SkeensChain.FreshNotInStatus | fuzzy_log_server/src/skeens.rs:169-179 | an id that never took round one here has no status |
| SkeensChain.QueueIdsDistinct | fuzzy_log_server/src/skeens.rs:157-214 | no id is queued twice |
| SkeensChain.HeapNotQueued | fuzzy_log_server/src/skeens.rs:313-318 | no id is both queued and in the heap |
| SkeensChain.ExistingTells | fuzzy_log_server/src/skeens.rs:169-179 | a repeated id is told the timestamp its round one proposed while it waits, and its final timestamp once it has one |
| SkeensChain.OnlyMultisHeld | fuzzy_log_server/src/skeens.rs:1228-1235 | between steps the heap holds no single: nothing queued can precede one, so the flush takes it along |
| SkeensChain.AlwaysAnswerable | fuzzy_log_server/src/skeens.rs:170-179 | the queue number in the status of a known id is that of a queued entry, so looking it up succeeds |
| SkeensEffects.AddMultiPending | fuzzy_log_server/src/skeens.rs:157-267 | round one adds one waiting entry with the chain's clock and disturbs no other |
| SkeensEffects.FinishMultiPending | fuzzy_log_server/src/ordering_thread.rs:86-131 | round two moves exactly one entry from waiting to assigned; every other waiting entry keeps its proposal, every assigned one its timestamp |
| SkeensEffects.HandleSinglePending | fuzzy_log_server/src/ordering_thread.rs:302-321 | a single append disturbs no waiting or assigned multi-append |
| SkeensEffects.WaitsOnce | fuzzy_log_server/src/skeens.rs:157-214 | an entry waits with one proposal only |
| SkeensEffects.UnseenIsFresh | fuzzy_log_server/src/skeens.rs:169-179 | an id this chain has never seen may take round one |
| SkeensSystem.MaxExists | fuzzy_log_client/src/store.rs:580-592 | the largest of a finished set of answers exists and is one of them |
| SkeensSystem.SafeR1 | fuzzy_log_server/src/ordering_thread.rs:651-671 | a round-one message in flight finds a chain that never saw its id |
| SkeensSystem.SafeR2 | fuzzy_log_server/src/skeens.rs:754-815 | a round-two message in flight finds its entry waiting, with a proposal at or below the final timestamp |
| SkeensSystem.SafeOne | fuzzy_log_server/src/skeens.rs:92-103 | a single append in flight that has to queue finds a non-empty queue |
| SkeensSystem.DeliverR1Inv | fuzzy_log_server/src/ordering_thread.rs:635-674 | round one on a chain keeps the system invariant |
| SkeensSystem.DeliverAckInv | fuzzy_log_client/src/store.rs:545-593 | collecting answers, and starting round two with their maximum, keeps it |
| SkeensSystem.DeliverR2Inv | fuzzy_log_server/src/ordering_thread.rs:676-752 | round two on a chain keeps it |
| SkeensSystem.DeliverOneInv | fuzzy_log_server/src/ordering_thread.rs:302-321 | a single append keeps it |
| SkeensSystem.StepInv | fuzzy_log_server/src/ordering_thread.rs:635-752 | every step that can happen is safe and keeps the invariant of all chains, clients and messages |
| SkeensClock.StepBelow | fuzzy_log_server/src/skeens.rs:180-202 | if all clocks, proposals and final timestamps are below a bound, one step later they are below the bound plus one |
| SkeensClock.RunBelow | fuzzy_log_server/src/skeens.rs:180-202 | so after any run they are below the bound plus the length of the run |
| SkeensClock.NoOverflow | fuzzy_log_server/src/skeens.rs:106-154 | the next step of a run overflows no 64-bit clock as long as the timestamps its singles carry plus its length stay below the largest |
| SkeensTheorems.NeverUnsafe | fuzzy_log_server/src/skeens.rs:754-815 | in every reachable state no assertion, unwrap or missing entry of the chain code can be hit by the next step |
| SkeensTheorems.AlwaysTold | fuzzy_log_server/src/skeens.rs:170-179 | in every reachable state looking up a repeated id meets no queue number the queue has let go of |
| SkeensTheorems.DeliveryIncreases | fuzzy_log_server/src/skeens.rs:270-359 | over a whole run a chain's deliveries are strictly increasing in key order, and the index of each is that of the event before it plus one for an entry that takes a slot, the same for one that only names it |
| SkeensTheorems.EverySlotOnce | fuzzy_log_server/src/ordering_thread.rs:107-139 | every index of the chain's trie but the first belongs to exactly one delivered entry: no gap, no slot twice |
| SkeensTheorems.FlushedUpTo | fuzzy_log_server/src/skeens.rs:341-353 | in every reachable state the timestamp up to which a chain counts as flushed is the largest it has delivered |
| SkeensTheorems.HeldBack | fuzzy_log_server/src/skeens.rs:313-359 | an empty queue means an empty heap, the front awaits its final timestamp, and everything held back could still be preceded by the front |
| SkeensTheorems.Conserved | fuzzy_log_server/src/skeens.rs:284-359 | an accepted id is queued, in the heap or delivered, exactly one of these; the status map holds exactly the first two; timestamps stay below the clock |
| SkeensTheorems.EventIdsDistinct | fuzzy_log_server/src/skeens.rs:339-359 | no id is delivered twice on a chain |
| SkeensTheorems.OneTimestamp | fuzzy_log_client/src/store.rs:580-592 | a multi-append is delivered with the same final timestamp on all its chains |
| SkeensTheorems.SameOrderEverywhere | fuzzy_log_server/src/skeens.rs:157-359 | two multi-appends or snapshots delivered on two common chains appear in the same order on both |
| SkeensTheorems.NoCycle | fuzzy_log_server/src/skeens.rs:270-359 | the union of all chains' delivery orders, of multis, snapshots and singles, queued or direct, has no cycle |
| SkeensTheorems.EarlierIsDelivered | fuzzy_log_server/src/skeens.rs:603-609 | a multi-append that precedes a delivered entry in key order is already delivered on every chain it shares with it |
| SkeensTheorems.ConsistentCut | fuzzy_log_server/src/ordering_thread.rs:86-131 | a multi-append at or below a snapshot's horizon on one chain is delivered, at or below it, on every other chain the two share and the snapshot reached |
| SkeensTheorems.CutAgrees | fuzzy_log_server/src/skeens.rs:216-267 | on chains both have reached, a multi-append is at or below the snapshot's horizon on one exactly when it is on the other |
| SkeensTheorems.SingleAfterSeen | fuzzy_log_server/src/skeens.rs:92-154 | a single sent with timestamp t comes after every multi-append ever delivered on its chain with a smaller final timestamp |
| SkeensSingles.SingleAfterDecided | fuzzy_log_server/src/skeens.rs:137-154 | a single whose client knew a write to be decided lands after it, however the run goes on, exactly when the write is delivered as the single arrives or the chain has flushed nothing up to the timestamp the single carries |
| SkeensSingles.SingleOvertakes | fuzzy_log_server/src/skeens.rs:137-154 | a run in which a single lands before a write its client knew to be decided |
| SkeensSingles.QueuedAfter | fuzzy_log_server/src/skeens.rs:92-135 | a single that had to queue lands after every write its client knew to be decided |
| SkeensRuns.RunGrows | fuzzy_log_server/src/skeens.rs:157-359 | along any run a chain only adds to what it has accepted and delivered |
| SkeensRuns.RunKeeps | fuzzy_log_client/src/store.rs:580-592 | along any run a decided write keeps its timestamp and a sent single its own |
| SkeensTheorems.QuietChain | fuzzy_log_server/src/skeens.rs:339-359 | when no message is in flight every queue and heap is empty |
| SkeensTheorems.QuietDelivered | fuzzy_log_server/src/ordering_thread.rs:86-131 | then every multi-append and snapshot is delivered on all its chains, and every single on its own |
| SkeensTheorems.Drains | fuzzy_log_server/src/ordering_thread.rs:635-752 | from every state deliveries alone lead to a state with nothing in flight |
| VecDequeMaps.VecDequeMap.PushBack | fuzzy_log_util/src/hash_deque_map.rs:30-35 | the value gets the next number and goes to the end |
| VecDequeMaps.VecDequeMap.PopFront | fuzzy_log_util/src/hash_deque_map.rs:37-47 | the front is removed and the start moves by one; a gap at the front gives nothing and still moves it |
| VecDequeMaps.VecDequeMap.Insert | fuzzy_log_util/src/hash_deque_map.rs:49-60 | a value at any number not yet popped, with start and next widened to hold it |
| VecDequeMaps.VecDequeMap.Update | fuzzy_log_util/src/hash_deque_map.rs:118-122 | one value changes, order and numbers do not |
| ChainHeads.ChainHead.constructor | fuzzy_log_server/src/skeens.rs:80-90 | an empty chain |
| ChainHeads.ChainHead.Push | fuzzy_log_server/src/skeens.rs:119-133 | refines the step of the same name and returns timestamp and queue number |
| ChainHeads.ChainHead.ExistingRes | fuzzy_log_server/src/skeens.rs:170-179 | refines what a repeated id is told |
| ChainHeads.ChainHead.AddMulti | fuzzy_log_server/src/skeens.rs:157-267 | refines round one; a repeated id changes nothing and is told its timestamp, a fresh one keeps the invariant |
| ChainHeads.ChainHead.RoundOne | fuzzy_log_server/src/skeens.rs:180-202 | a fresh id gets the clock's timestamp, which is not zero, and the next queue number |
| ChainHeads.ChainHead.AddSingle | fuzzy_log_server/src/skeens.rs:92-135 | refines queueing a single |
| ChainHeads.ChainHead.NeedSingleAt | fuzzy_log_server/src/skeens.rs:137-154 | true exactly when something is held and the chain has not flushed up to t; otherwise the clock passes t |
| ChainHeads.ChainHead.HandleSingle | fuzzy_log_server/src/ordering_thread.rs:302-321 | refines the single's step, keeps the invariant, and returns the index of a direct write |
| ChainHeads.ChainHead.Peek | fuzzy_log_server/src/skeens.rs:603-609 | the heap's first element in key order |
| ChainHeads.ChainHead.CanFlush | fuzzy_log_server/src/skeens.rs:603-609 | refines the flush test |
| ChainHeads.ChainHead.PopReady | fuzzy_log_server/src/skeens.rs:314-318 | the loop refines its recursive form |
| ChainHeads.ChainHead.SetMax | fuzzy_log_server/src/skeens.rs:270-325 | refines round two for a waiting id and says whether a flush is due |
| ChainHeads.ChainHead.SetMaxOther | fuzzy_log_server/src/skeens.rs:284-298 | an id that is not waiting changes nothing but the clock, is told why, and the invariant is kept |
| ChainHeads.ChainHead.FlushOne | fuzzy_log_server/src/skeens.rs:341-353 | refines one delivery; what it keeps fixes the index handed out (SkeensChain.FlushOneCore) |
| ChainHeads.ChainHead.Flush | fuzzy_log_server/src/skeens.rs:339-359 | the loop refines the flush and returns what it delivered, in order |
| ChainHeads.ChainHead.FinishMulti | fuzzy_log_server/src/ordering_thread.rs:86-131 | refines round two with its flush, keeps the invariant, returns what it delivered |
| HeadServers.HeadServer.EnsureChain | fuzzy_log_server/src/ordering_thread.rs:160-175 | a chain used for the first time starts empty, no other moves |
| HeadServers.HeadServer.Round1 | fuzzy_log_server/src/ordering_thread.rs:635-674 | each stored chain of the packet takes its step and proposes a positive timestamp and its queue number, and every other chain stands still; the other positions get zeros for a multi-append and keep their stored values for a snapshot |
| HeadServers.HeadServer.Round2 | fuzzy_log_server/src/ordering_thread.rs:676-752 | each stored chain of the packet finishes its round two and hands out exactly what it newly delivered |
| HeadServers.AnswerFitsClient | fuzzy_log_server/src/ordering_thread.rs:651-671 | a server's round-one answer stamps exactly what the client expects of that server |
| HeadServers.AdvanceOne | fuzzy_log_server/src/ordering_thread.rs:651-671 | a packet that names a chain once makes one step on it |
| HeadServers.SeparatorStays | fuzzy_log_server/src/ordering_thread.rs:442-452 | after both rounds of a snapshot a chain still awaits its final timestamp exactly when it is chain 0, the packet has a separator and chain 0 would be this server's |
| HeadServers.SeparatorLeft | fuzzy_log_server/src/ordering_thread.rs:442-452 | a packet after which chain 0 waits for ever |
| ServerBatches.Round1Ready | fuzzy_log_server/src/ordering_thread.rs:651-671 | in a state of the system whose round-one messages the packet holds, every chain it names is ready for round one, but for the width of the clock |
| ServerBatches.Round1Refines | fuzzy_log_server/src/ordering_thread.rs:635-674 | a server's round one over all its chains is a run of the system that delivers their messages, and each position of its answer is the acknowledgement of its chain |
| ServerBatches.AnswerCarries | fuzzy_log_server/src/ordering_thread.rs:651-671 | the packet answered carries exactly the acknowledgements that the step of the client stands for |
| ServerBatches.Round2Ready | fuzzy_log_server/src/ordering_thread.rs:691-700 | every chain a round-two packet names is waiting with a proposal at or below its timestamp |
| ServerBatches.Round2Refines | fuzzy_log_server/src/ordering_thread.rs:676-752 | a server's round two over all its chains is a run of the system |
| ServerBatches.Batch1 | fuzzy_log_server/src/ordering_thread.rs:651-671 | delivering round one to any set of chains moves exactly these, each by its own step, and leaves one acknowledgement per chain with its clock |
| ServerBatches.Batch2 | fuzzy_log_server/src/ordering_thread.rs:691-752 | delivering round two to any set of chains moves exactly these |
| WriteStorages.WriteStorage.Finished | fuzzy_log_server/src/worker_thread.rs:330-402 | a delivered chain fills in its location and drops its reference; the answer goes out exactly with the last chain, and has the index of every one of them |
| WriteStorages.WriteStorage.constructor | fuzzy_log_server/src/lib.rs:251-270 | the storage of a write starts with one reference per chain of the server |
| Replica.FirstApplies | fuzzy_log_server/src/skeens.rs:400-553 | any round-one record that arrives applies and keeps the replica's invariant |
| Replica.SecondApplies | fuzzy_log_server/src/skeens.rs:555-601 | so does any round-two record whose round one has arrived |
| Replica.StateDetermined | fuzzy_log_server/src/skeens.rs:400-601 | the set of records that arrived determines the whole state |
| Replica.Converges | fuzzy_log_server/src/ordering_thread.rs:1029-1195 | equal records in any two orders give equal states, and what was handed on is a gap-free prefix of the head's queue numbers, each once, at the head's timestamp and index |
| Replica.PrefixHandedOn | fuzzy_log_server/src/skeens.rs:585-600 | what was handed on is a gap-free prefix of the head's queue numbers, each once, at the head's timestamp and index, and it stops only where a round two is missing |
| Replica.AllHandedOn | fuzzy_log_server/src/skeens.rs:555-601 | when all records have arrived everything is handed on and nothing is left |
| Replica.HeadTableOk | fuzzy_log_server/src/skeens.rs:157-359 | the records a head sends form a table the replica can rely on |
| Replica.ReplicaAgrees | fuzzy_log_server/src/skeens.rs:555-601 | each entry the replica of a chain hands on is one its head delivered, with its timestamp and index, for every head state and every arrival of its records |
| Replica.ReplicaCatchesUp | fuzzy_log_server/src/skeens.rs:555-601 | once the head holds nothing and its records have arrived, the replica has handed on all entries |
| ReplicaRuns.RecordsStand | fuzzy_log_server/src/skeens.rs:157-359 | along any run a head's records only grow: none changes once it is finished, and new ones come at the end |
| ReplicaRuns.AgreesForGood | fuzzy_log_server/src/skeens.rs:400-601 | a replica that got some records stays right in every later state of the head: what it has handed on is then still what the head delivered, with its timestamp and index |
| ReplicaChains.ReplicaChain.Round1 | fuzzy_log_server/src/skeens.rs:400-553 | refines the record's step; a repeated id changes only the clock |
| ReplicaChains.ReplicaChain.Round2 | fuzzy_log_server/src/skeens.rs:555-601 | refines it and returns what it handed on |
| ReplicaChains.ReplicaChain.Drain | fuzzy_log_server/src/skeens.rs:585-600 | the loop hands on the finished front, in order |
| ReplicaChains.Recoveries.TasRecoverer | fuzzy_log_server/src/skeens.rs:616-641 | a claim wins exactly when it names the current holder, and then holds the write under the next turn; one that loses is told the holder and changes nothing |
| ReplicaChains.WinsByName | fuzzy_log_server/src/skeens.rs:616-641 | for every holder and claim: who wins, what a win installs and what a loss is told |
| ReplicaChains.Recoveries.ReplicateRecoverer | fuzzy_log_server/src/skeens.rs:643-664 | a record applies exactly when it is newer; one that does not is refused with the holder there is |
| ReplicaChains.TakeoversChain | fuzzy_log_server/src/skeens.rs:616-641 | takeovers are numbered 1, 2, 3, ..., each naming the holder before it, and the last one holds |
| ReplicaChains.TakeoversExactly | fuzzy_log_server/src/skeens.rs:616-641 | over any sequence of claims the takeovers are exactly the claims that named the holder of their time, in order |
| ReplicaChains.AppliedIsLatest | fuzzy_log_server/src/skeens.rs:643-664 | a replica ends with the newest record it got |
| ReplicaChains.ReplicaHolder | fuzzy_log_server/src/skeens.rs:616-664 | with all records, in any order and with duplicates, it agrees with the head |
| StoreClients.OwnersReadHeads | fuzzy_log_client/src/store.rs:1143-1182 | replicated or not, the servers that answer a write are the readers of its chains' heads |
| StoreClients.ReadersApart | fuzzy_log_client/src/store.rs:1143-1182 | the server that answers for a chain reads its head; replicated, it is never a head, and distinct heads have distinct readers |
| StoreClients.StoreClient.IsSingleNode | fuzzy_log_client/src/store.rs:1102-1116 | true exactly when all real chains have the same head |
| StoreClients.StoreClient.ServersForMulti | fuzzy_log_client/src/store.rs:1118-1139 | the heads of the write's chains, each once, in order |
| StoreClients.StoreClient.Readers | fuzzy_log_client/src/store.rs:1088-1095 | the awaited servers are exactly the owners of the write's chains |
| StoreClients.StoreClient.Begin | fuzzy_log_client/src/store.rs:898-984 | a write starts in round one, asked of exactly the heads of its chains; a head gets the data exactly when one of its chains comes before the first separator, and the assertion that a sentinel has a separator holds |
| StoreClients.StoreClient.TakeStamps | fuzzy_log_client/src/store.rs:565-578 | exactly the answering server's chains get their timestamps; the assertions that none is taken twice and none is zero hold |
| StoreClients.StoreClient.MaxOf | fuzzy_log_client/src/store.rs:581 | the largest timestamp |
| StoreClients.StoreClient.RaiseSeen | fuzzy_log_client/src/store.rs:582-587 | the timestamps seen on exactly these chains are raised to m |
| StoreClients.StoreClient.Accept | fuzzy_log_client/src/store.rs:545-593 | an awaited answer either leaves the write waiting for the rest or, as the last, queues it for round two |
| StoreClients.StoreClient.OnRoundOne | fuzzy_log_client/src/store.rs:319-352 | what a round-one answer does in each branch, a repeated answer and one without the flag included |
| StoreClients.StoreClient.SendSkeens2 | fuzzy_log_client/src/store.rs:1016-1078 | round two goes out once, to the heads, with the final timestamp and cleared indices |
| StoreClients.StoreClient.AfterWork | fuzzy_log_client/src/store.rs:1279-1288 | every queued write's round two goes out and no other write moves |
| StoreClients.StoreClient.TakeLocs | fuzzy_log_client/src/store.rs:366-377 | positions are filled from the chain's own server only, and all are filled exactly when it says so |
| StoreClients.StoreClient.OnRoundTwo | fuzzy_log_client/src/store.rs:354-512 | what a round-two answer does; exactly when that makes the write complete the application is told, once for a multi-append and once per location for a snapshot, with the locations of every chain |
| StoreClients.StoreClient.Notify | fuzzy_log_client/src/store.rs:424-505 | exactly one report of a multi-append with its locations; one report per location of a snapshot, in order, each with all of them |
| StoreClients.StoreClient.SingleTimestamp | fuzzy_log_client/src/store.rs:782-786 | a single append carries exactly the largest timestamp this client knows on its chain: one it was told, or that of a multi-append of its own that is decided, and none it knows is larger |
| StoreClients.PlacedByOwner | fuzzy_log_client/src/store.rs:367-376 | a location other than zero was given by the chain's own server |
| StoreClients.RoundTwoOnce | fuzzy_log_client/src/store.rs:545-593 | at all times round two was started exactly once if all chains have answered and the write is not queued, else not at all; with exactly the maximum of all timestamps, all positive, to exactly the heads |
| StoreClients.ReportedOnce | fuzzy_log_client/src/store.rs:354-512 | at all times: no report before round two is complete; then exactly one of a multi-append, with the locations the chains' own servers supplied, none zero, or exactly one per location of a snapshot, in order |
| StoreClients.NeverLost | fuzzy_log_client/src/store.rs:308-512 | until it is reported a write is in exactly one of the client's tables, unless an unflagged answer dropped it |
| StoreClients.SeenCovers | fuzzy_log_client/src/store.rs:582-587 | the timestamps seen cover every decided write |
| StoreClients.StoreClient.See | fuzzy_log_client/src/store.rs:676-682 | the timestamps seen on exactly these chains are raised to the one told, and no write is disturbed |
| StoreFronts.StoreFront.SendData | fuzzy_log_client/src/store.rs:776-795 | an append to one chain goes to the chain's head with the largest timestamp seen on it |
| StoreFronts.StoreFront.SendFast | fuzzy_log_client/src/store.rs:810-818 | a multi-append with one head goes there in one message |
| StoreFronts.StoreFront.SendRead | fuzzy_log_client/src/store.rs:875-879 | one more read waits at the location |
| StoreFronts.StoreFront.OnSingleServer | fuzzy_log_client/src/store.rs:514-541 | a write to a single server is finished, once, exactly when no location is missing; what is reported are the packet's locations, and the timestamps seen are raised to the packet's |
| StoreFronts.AnsweredInParts | fuzzy_log_client/src/store.rs:520-536 | two packets that complete a write of which the report lacks a location |
| StoreFronts.StoreFront.HandleCompletedWrite | fuzzy_log_client/src/store.rs:308-629 | the dispatch over two-round writes, writes to single servers and packets of no write, the reports each makes, what goes on to the reads, and which timestamps seen the packet raises and to what |
| StoreFronts.GoodPlaces | fuzzy_log_client/src/store.rs:656-689 | an entry is good for exactly the positions that are no separators, for a sentinel only those behind one, in order |
| StoreFronts.ReadsConserved | fuzzy_log_client/src/store.rs:687-706 | reads are neither lost nor answered twice: an entry answers, at each location it is good for, as many waiting reads as it names it, or all there are |
| StoreFronts.OwnIsAll | fuzzy_log_client/src/store.rs:707 | a client that reads its own writes gets them at every location |
| StoreFronts.StoreFront.HandleCompletedRead | fuzzy_log_client/src/store.rs:633-748 | which locations of a packet are answered and with what, for snapshots, sentinels, own writes and other entries, and which timestamps seen are raised; the assertions that no location is 0 hold |
| StoreFronts.ReadRaises | fuzzy_log_client/src/store.rs:676-682 | an entry read raises the timestamp seen on every chain it is on to its own |
| StoreFronts.ReadRaisesOnly | fuzzy_log_client/src/store.rs:676-682 | a timestamp seen that changes is that of such an entry, on a chain the entry names |
| StoreFronts.StoreFront.HandleMessage | fuzzy_log_client/src/store.rs:265-304 | the write first and then the reads, exactly for the packets that say so; the timestamps seen are raised by each in turn, and afterwards cover an entry read on every chain it is on |
| ClientCoordinators.BeginRefines | fuzzy_log_client/src/store.rs:898-984 | starting a write is the system's first step of it: round one to all its chains |
| ClientCoordinators.AnswerRefines | fuzzy_log_client/src/store.rs:545-593 | a server's answer is the delivery of one acknowledgement per chain it answers for, in any order; the client then has exactly the coordinator's proposals, and if it was the last answer the coordinator has decided |
| ClientCoordinators.OtherwiseStill | fuzzy_log_client/src/store.rs:308-512 | every other step of the client leaves the coordinator as it is |
| ClientCoordinators.SendsTheDecision | fuzzy_log_client/src/store.rs:1016-1078 | at all times the client has sent or queued round two exactly when the coordinator has decided, and what it sends is the coordinator's timestamp, to the head of every chain of the write |
| ClientCoordinators.DeliverAll | fuzzy_log_client/src/store.rs:565-592 | acknowledgements taken one by one, in any order, leave the coordinator as when they are taken together |
| EndToEnd.HandedOut | fuzzy_log_server/src/ordering_thread.rs:708-722 | the index round two hands out for a write is where its chain has delivered that write |
| EndToEnd.ReplicaHandsOn | fuzzy_log_server/src/ordering_thread.rs:1120-1195 | so is the index a replica hands on |
| EndToEnd.AnswerTells | fuzzy_log_server/src/worker_thread.rs:384-396 | the answer of a server is true of all its chains, as the client counts them |
| EndToEnd.HonestForGood | fuzzy_log_server/src/skeens.rs:339-359 | an answer that was true stays true in every later state |
| EndToEnd.HonestHeard | fuzzy_log_client/src/store.rs:354-512 | a client that takes true answers has only true ones |
| EndToEnd.HonestOtherwise | fuzzy_log_client/src/store.rs:308-352 | so has one that starts a write, hears of round one or sends round two |
| EndToEnd.ReportedWhereStored | fuzzy_log_client/src/store.rs:424-505 | every location a client reports, of a multi-append or a snapshot, is the index at which that chain delivered the write |
| EndToEnd.ReportedEntry | fuzzy_log_client/src/store.rs:424-505 | in every reachable state the entry behind a reported location is the client's own, of the kind it started, and a multi-append's index is taken by no other entry of the chain |
| EndToEnd.KnownDecided | fuzzy_log_client/src/store.rs:582-587 | a write the client knows to be decided has, in the system, at most the timestamp the client's singles on its chains carry |
| EndToEnd.SingleAfterKnown | fuzzy_log_client/src/store.rs:782-786 | a client's single lands after a write the client knew to be decided exactly when that is delivered as the single arrives or nothing up to the single's timestamp is flushed |
| EndToEnd.SingleAfterReported | fuzzy_log_client/src/store.rs:782-786 | a client's single lands after every write the client has reported, in every run |
| Ranges.MergeWithUnion | fuzzy_log_util/src/range_tree.rs:305-343 | merging touching or overlapping ranges is set union |
| Ranges.SplitAtAround | fuzzy_log_util/src/range_tree.rs:356-368 | splitting at any point leaves exactly what lies before and after it |
| Ranges.RemoveAround | fuzzy_log_util/src/range_tree.rs:371-383 | so does removing a range that is spanned |
| Ranges.TrimOutPartitions | fuzzy_log_util/src/range_tree.rs:389-436 | trimming partitions a range into before, overlap and after exactly when the other range is not strictly inside, or is a point |
| Ranges.TrimOutInside | fuzzy_log_util/src/range_tree.rs:411-415 | a range where it does not |
| RangeTrees.OneTreePerFunction | fuzzy_log_util/src/range_tree.rs:195-209 | canonical trees with the same denotation are the same tree |
| RangeTrees.RangeTree.WithDefault | fuzzy_log_util/src/range_tree.rs:32-38 | a canonical tree with one value everywhere |
| RangeTrees.RangeTree.Get | fuzzy_log_util/src/range_tree.rs:40-42 | the value of the denoted function |
| RangeTrees.RangeTree.TryMergeWithNext | fuzzy_log_util/src/range_tree.rs:234-253 | merges with the right neighbour exactly when it has the same value, so none with that value remains beside it |
| RangeTrees.RangeTree.TryMergeWithPrior | fuzzy_log_util/src/range_tree.rs:255-274 | the same on the left |
| RangeTrees.RangeTree.Carve | fuzzy_log_util/src/range_tree.rs:111-140 | a change inside one range is a point-wise update and keeps the tree canonical |
| RangeTrees.RangeTree.SetPointAs | fuzzy_log_util/src/range_tree.rs:52-96 | point-wise update, canonical, and true exactly when the value changed |
| RangeTrees.RangeTree.Absorb | fuzzy_log_util/src/range_tree.rs:144-162 | one turn of the sweep; the range trimmed is never one that holds the target strictly inside |
| RangeTrees.RangeTree.SetRangeAs | fuzzy_log_util/src/range_tree.rs:99-185 | the denoted function with every point of the range set to the new value, and the tree canonical |
| RangeTrees.RangeTree.FirstWith | fuzzy_log_util/src/range_tree.rs:187-192 | the least point with the value, or none has it |
| Replicators.ForwardedOnceCovered | fuzzy_log_client/src/replicator.rs:247-289 | an entry is forwarded at most once, and only when each dependency is covered by an acknowledged index at or above it |
| Replicators.HeldExactly | fuzzy_log_client/src/replicator.rs:314-344 | an entry is held exactly while a dependency missing at its arrival has itself not been acknowledged |
| Replicators.NothingStaysBlocked | fuzzy_log_client/src/replicator.rs:314-328 | when all dependencies are acknowledged everything is forwarded and nothing blocked |
| Replicators.BlockedOnUnacked | fuzzy_log_client/src/replicator.rs:330-339 | what blocks an entry is an unacknowledged dependency of it |
| Replicators.DropHandle | fuzzy_log_client/src/replicator.rs:322-326 | letting go of a handle sends the entry exactly when it was the last, duplicates of a dependency included |
| Replicators.SentDetermined | fuzzy_log_client/src/replicator.rs:314-339 | what was received and the order of the acknowledgements determine what is sent and in which order |
| Replicators.HeldThoughCovered | fuzzy_log_client/src/replicator.rs:314-328 | a run that holds an entry although its dependency is covered |
| Replicators.Replicator.CanAppend | fuzzy_log_client/src/replicator.rs:251-254 | true exactly when no dependency is missing |
| Replicators.Replicator.Read | fuzzy_log_client/src/replicator.rs:247-289 | an entry goes out at once exactly when nothing is missing |
| Replicators.Replicator.Block | fuzzy_log_client/src/replicator.rs:330-344 | one handle per missing dependency, behind those of earlier entries |
| Replicators.Replicator.AfterWriteAck | fuzzy_log_client/src/replicator.rs:314-328 | the horizon rises, the waiting entries let go keep the invariant, and those that go out do so in the order they came |
| Replicators.Replicator.Wrote | fuzzy_log_client/src/replicator.rs:216-221 | all locations of a write are acknowledged, one append is no longer outstanding, and after each location exactly the entries are out that wait for nothing more, those of one location in the order they came |
| Replicators.Replicator.HandleMessage | fuzzy_log_client/src/replicator.rs:211-312 | the dispatch: every buffer read goes back to the remote log, an unused slot asks for a new snapshot of its chain, a round is over exactly when every snapshot asked for has ended, and what each message sends on and in which order |
| RadixLevels.OrdinalIsShift | fuzzy_log_server/src/trie.rs:223-226 | shifting a key gives the number of its segment |
| RadixLevels.AlignedIsMask | fuzzy_log_server/src/trie.rs:501-534 | the masks test whether a key is the first of a segment |
| RadixLevels.OrdinalSplits | fuzzy_log_server/src/trie.rs:223-226 | a segment hangs below its parent at the level's index |
| RadixLevels.CountGrows | fuzzy_log_server/src/trie.rs:501-539 | a level needs a new segment exactly at an aligned key, and is full then |
| RadixArena.ExhaustedIffFull | fuzzy_log_server/src/trie.rs:112-114 | a shortcut is used up exactly when all segments of its level are full |
| RadixArena.OpenShape | fuzzy_log_server/src/trie.rs:510-539 | a new segment appended through the level above keeps the tree's shape |
| RadixArena.OpenTop | fuzzy_log_server/src/trie.rs:501-509 | so does one hung into the root |
| RadixArena.PutShape | fuzzy_log_server/src/trie.rs:540-542 | so does a value appended through the last shortcut |
| RadixArena.OpenDue | fuzzy_log_server/src/trie.rs:510-539 | when the next key is aligned for a level, its shortcut is used up and the one above is not, and opening it leaves the shape in which the next level takes its turn |
| RadixArena.PutDue | fuzzy_log_server/src/trie.rs:540-542 | after all levels have had their turn the last shortcut has room, and the value put there completes the append |
| RadixArena.WalkFinds | fuzzy_log_server/src/trie.rs:737-752 | in a tree of that shape the walk finds the k-th value, and nothing beyond the last |
| Tries.UsedUpExactly | fuzzy_log_server/src/trie.rs:496-543 | a level's shortcut is used up exactly when the number of segments below is a multiple of 1024; where the code tests it, that is alignment |
| Tries.UsedUpUnaligned | fuzzy_log_server/src/trie.rs:528-533 | an unaligned index with a used-up shortcut |
| Tries.Trie.ShortcutsExactly | fuzzy_log_server/src/trie.rs:496-543 | the same of a trie after any number of appends |
| Tries.Trie.OpenRoot | fuzzy_log_server/src/trie.rs:501-509 | opens the first level when due; its assertions hold |
| Tries.Trie.OpenLevel | fuzzy_log_server/src/trie.rs:510-539 | opens a level when due; its assertion holds and the shortcut above is not used up |
| Tries.Trie.PrepAppend | fuzzy_log_server/src/trie.rs:496-543 | the n-th append returns n and the entries are those before and this one |
| Tries.Trie.Get | fuzzy_log_server/src/trie.rs:737-752 | for every 64-bit key the entry appended there, or none |
| ByteTries.RoundUpToNext | fuzzy_log_server/src/byte_trie.rs:357-362 | the next multiple of the block size |
| ByteTries.StartFits | fuzzy_log_server/src/byte_trie.rs:286-308 | padding is shorter than the region it makes room for, and the region then fits its block |
| ByteTries.OneMore | fuzzy_log_server/src/byte_trie.rs:283-353 | one more region keeps all regions apart and the padding below half |
| ByteTries.EveryRun | fuzzy_log_server/src/byte_trie.rs:283-353 | for all sizes the regions are disjoint, each within a block, and take more than half of the bytes used |
| ByteTries.EvenRun | fuzzy_log_server/src/trie.rs:160-171 | even sizes give even locations |
| ByteTries.ByteTrie.OpenLevel | fuzzy_log_server/src/byte_trie.rs:311-334 | opens a level when due; its assertion holds |
| ByteTries.ByteTrie.NewBlock | fuzzy_log_server/src/byte_trie.rs:341-347 | a new block hung into the tree, its first bytes taken |
| ByteTries.ByteTrie.Take | fuzzy_log_server/src/byte_trie.rs:310-352 | a region of the current block or a new one, at its location |
| ByteTries.ByteTrie.Append | fuzzy_log_server/src/byte_trie.rs:283-354 | the region's location, block and offset, padding included, with all regions kept apart; the invariant is kept exactly unless nothing is asked for at the end of a block, and the address of the last byte overflows exactly for nothing of an empty allocator |
| ByteTries.NothingAtBlockEnd | fuzzy_log_server/src/byte_trie.rs:335-347 | a run after which the assertion of the next append fails |
| ByteTries.EndByteExact | fuzzy_log_server/src/byte_trie.rs:287-289 | the 64-bit address of the last byte overflows exactly for nothing at address zero, and the test for two blocks is right all the same |
| ByteTries.ByteTrie.Get | fuzzy_log_server/src/byte_trie.rs:255-264 | a location of any block in use is found there at its offset, and one beyond the last block is not |
| ByteTries.AllocPtr.ReserveSpace | fuzzy_log_server/src/trie.rs:160-187 | small entries get an even location in a block, large ones a box of their rounded size, and the mark is set at the start of a block or for a box; size zero included |
| WriteStreams.DoubleBuffer.TryFillBuffer | fuzzy_log_packets/src/double_buffer.rs:103-119 | when bytes are added, and that they go behind everything in the buffers |
| WriteStreams.DoubleBuffer.FillPieces | fuzzy_log_packets/src/double_buffer.rs:71-76 | for any capacities all pieces of a message that fits are added, in order |
| WriteStreams.DoubleBuffer.Fill | fuzzy_log_packets/src/double_buffer.rs:57-77 | the contents grow by the message; the writer's assumption survives exactly unless the message exceeds both capacities of an empty buffer |
| WriteStreams.DoubleBuffer.FlushPending | fuzzy_log_packets/src/double_buffer.rs:157-165 | the contents stay the same, and waiting messages leave from the front only |
| WriteStreams.DoubleBuffer.SwapIfNeeded | fuzzy_log_packets/src/double_buffer.rs:40-46 | exactly the first buffer goes; with non-empty messages the buffer is then empty or its first buffer is not |
| WriteStreams.TcpIo.InOrder | reactor/src/lib.rs:705-736 | bytes on the wire, then the rest of first, then second, then pending are all bytes ever filled, in order |
| WriteStreams.TcpIo.AddBytesToWrite | reactor/src/lib.rs:807-810 | the message goes to the end of the stream |
| WriteStreams.TcpIo.Write | reactor/src/lib.rs:705-736 | exactly the bytes the socket took go from the buffers to the wire, and the connection goes on writing after bytes were taken, stops when nothing is left or the socket blocks, and else stays as it was |
| WriteStreams.OversizedOnIdle | reactor/src/lib.rs:711 | a run after which the writer's debug assertion fails |
| SpscChannels.StepInv | fuzzy_log_server/src/spsc.rs:131-167 | every atomic step of either thread keeps the channel's invariant |
| SpscChannels.InOrder | fuzzy_log_server/src/spsc.rs:72-94 | in every run, registered or not, what is received is what was sent, in order, up to what is queued, and at rest the counter is the length of the queue |
| SpscChannels.NoLostWakeUp | fuzzy_log_server/src/spsc.rs:72-94 | in every interleaving of a registered channel, whenever neither thread is in a call, the counter is the length of the queue and a non-empty queue is announced |
| SpscChannels.ReceiveAlone | fuzzy_log_server/src/spsc.rs:144-167 | a receive that no send overlaps leaves the flag up exactly when something is left |
| SpscChannels.SendAlone | fuzzy_log_server/src/spsc.rs:131-142 | a send that no receive overlaps puts the flag up |
| SpscChannels.StaleExactly | fuzzy_log_server/src/spsc.rs:131-167 | for every overlap of a receive with sends: exactly which leave the flag up over nothing |
| SpscChannels.StaleFlag | fuzzy_log_server/src/spsc.rs:131-167 | a run in which it stays up over an empty queue |
| SpscChannels.RegisteredExactly | fuzzy_log_server/src/spsc.rs:98-114 | after registration every run keeps announcing exactly when what is counted was counted as registration began, or the sender still has to look for the registration |
| SpscChannels.QuietRegistration | fuzzy_log_server/src/spsc.rs:98-114 | registering while no send is under way gives a registered channel whose flag is right |
| SpscChannels.RegistrationRace | fuzzy_log_server/src/spsc.rs:98-142 | a run in which a send that overlaps registration is never announced |
| SpscChannels.CounterWraps | fuzzy_log_server/src/spsc.rs:144-156 | an interleaving in which the counter wraps below zero for a moment |

## Left out

- What a server does for the single-server fast path of multi-appends and snapshots, and local Skeens: they bypass the clock or are marked as not working.
- Old-style locking multi-appends and the trie's locks: the client calls that path unreachable.
- Garbage collection in the trie and the allocator, and appends at a given place mixed with ordinary appends: only append-only runs are modelled.
- Retransmitted or repeated rounds, and client failure beyond the recovery table: the code does not implement them.
- Entries written directly at an index the client chose: they do not take part in the ordering.
- Packet encoding, sockets, polling, event loops, worker threads and the copying of entry bytes: packets are datatypes and entries are ids.
- Waiting for the other holder of a write's storage: the message that carries the round-one answer is taken to be gone before the last chain delivers.
- Memory ordering of atomics: each atomic operation of the channel is one step of an interleaving.
- Merge rules of the range tree other than equality: the code says merging is wrong for them.
- Raw memory: a segment, block or shared entry is named by a number in an explicit store, so freeing and dangling references are not modelled.
- The unused heap and queue variants for old-style singles.
- WriteStreams.DoubleBuffer.Fill: filling from an entry's contents differs only in where the first piece comes from and is not modelled separately.
