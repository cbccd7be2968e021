# Flume: a verified model of its protocols

Flume moves data between ranks and between storage and device memory (HBM). This project
models the parts of it whose correctness spans many steps or many parties, in Dafny, and
proves what each promises. `dafny verify dfyconfig.toml` checks everything.

**The simulated engine** (`Sim*.dfy`). Clients submit collectives, point-to-point operations
and HCOMM payload copies into global tables; the last arrival moves the bytes, completes the
IOs and drops reference counts. `SimState` holds the data, `SimCollective`, `SimPair` and
`SimEngine` the operations as a state machine over nineteen kinds of event (every library call
and every step of the worker threads), and `SimLibrary` the same operations as an object that
checks each request branch by branch and updates its tables step by step; each of its calls
keeps the invariant and takes exactly the machine's transition. `SimLedger` names
every slot that can hold a reference; the invariant (`SimCollectiveInv`, `SimArrive`,
`SimEngineInv`, `SimRuns`) balances slots against counts and is kept by every event, so it
holds in every state callers can reach. A flag in the state records any touch of a released
handle, any write outside a buffer and any reference dropped without being held: the main
theorem says it is never set, as long as callers keep what a plan they read points to. On top
of it: what the calls admit (`SimAdmission`), collectives (`SimDelivery`, `SimMatching`,
`SimReduction`), FIFO pairing (`SimFifo`), storage-direct
plans and reads (`SimSafety`, `SimDrain`, `SimPassage`, `SimDirect`), with concrete runs in `SimWitness`. The
reduction operator is a parameter of which nothing is assumed.

**The HCOMM pair copy** (`PayloadPlan`, `PairCopy`, `HostPlans`). Two ranks run the step lists the plan
builder returns, for any number of rounds, in any interleaving, on a channel where posted reads
and writes land at once or arbitrarily late, with or without the host priming its buffers. The
main result is an exact condition for delivery, first for plan options and then for the
caller's channel options.

**The trace gate** (`TraceGate`, `TraceKernel`). The device kernel records events in a ring;
the host decides from the decoded ring whether the planned copy happened. The gate is related
to the plan builder and to a model of the kernel under every pattern of primitive failures.

**The RoCE storage control plane** (`Fields`, `Wire`, `Stream`, `ControlChannel`,
`ControlProxy`, `ControlStream`, `StorageServer`, `StorageClient`, `ResourceLog`, `HostRa`,
`RoceSession`): message codecs, channels over chunked streams, the proxy as a transducer, the
two servers, the client session under arbitrary foreign failures, and the interleavings of
submitters, workers and closers.

**The storage agent** (`Framing`, `AgentState`, `Agent`) and **the NVMe canary** (`Nvme`).

Simplifications that hold throughout: a submission to the simulated engine is one atomic step
(the source holds the table's lock while it works on an entry); counters and handles are
unbounded numbers; clocks, sockets, RDMA and vendor calls are parameters that say how each call
turns out. Where a law of the source does not hold on all inputs, the model keeps the code as
it is and states exactly when it does:

* the pair copy delivers in every run if and only if data cannot be overtaken by its notify and
  priming never meets a buffer the peer writes (`PairCopy.DeliveryIsExact`);
* a storage plan keeps its destination alive if and only if its window names the destination
  (`SimDrain.KeepsDestinationExactly`): host-staged plans are not checked for that, and
  `SimWitness.DanglingPlan` is a run that leaves one dangling;
* direct reads leave the bytes that host staging of the whole block would have left if and only
  if the target already holds what the source plan does not cover
  (`SimDirect.AgreesOnWholeBlock`, with a short plan in `SimWitness.ShortPlanDiffers`);
* the storage agent closes every descriptor exactly once if and only if no start is made between
  the moment a stop lowers the running flag and the moment it closes the listener
  (`Agent.LifeOf`): `Agent.LostListener` is a run that leaves a listener open for good;
* a completion survives the wire if and only if its status fits in 16 bits
  (`Wire.CompletionRoundTrip`);
* a text field is read back if and only if its size fits in 32 bits (`Framing.FieldRoundTrip`);
* the ring decodes to the newest events unless the 32-bit event count has wrapped onto a small
  value (`TraceGate.DecodeIsExact`, with such a log in `TraceGate.WrappedTraceLooksEmpty`); one
  run of the kernel records far too few events for that (`TraceKernel.KernelLogFits`).

## Model

| member | source | states |
|---|---|---|
| `SimState.CheckedBytes` | src/core/client.cc:544-554 | a byte count exists exactly for a known type, a positive count and a product that fits 64 bits, and is the exact product |
| `SimState.CheckedMul` | src/core/client.cc:556-562 | the same for a product of sizes |
| `SimAdmission.Widths` | src/core/client.cc:521-541 | the element types by size |
| `Common.ChecksumVectors` | src/protocol/framing.cc:248-256 | the checksum has the published values of FNV-1a |
| `SimCollective.OutputSize` | src/core/client.cc:1091-1142 | the result of a collective has exactly the output size its parameters announce |
| `SimLedger.BalanceAdd` | src/core/client.cc:1314-1321 | a slot that takes a retained buffer and a new pending IO keeps counts and slots in balance |
| `SimLedger.BalanceDrop` | src/core/client.cc:808-823 | a slot that releases its buffer and completes its IO keeps counts and slots in balance |
| `SimCollectiveInv.FailRanksSettles` | src/core/client.cc:1144-1152 | failing the arrived ranks one by one keeps the balance at every step, empties exactly their slots and moves no byte |
| `SimCollectiveInv.CompleteRanksSettles` | src/core/client.cc:1154-1186 | completing the ranks one by one keeps the balance at every step and stays inside every destination |
| `SimArrive.ArriveKeeps` | src/core/client.cc:1288-1330 | a collective submission, joining, failing or completing its entry, keeps the balance and the table's shape and touches no other entry |
| `SimPair.FailPairKeeps` | src/core/client.cc:1023-1034 | failing a pair entry settles exactly its waiting half and moves no byte |
| `SimPair.MeetKeeps` | src/core/client.cc:1404-1449 | a send or receive, first or second, matching or not, keeps the balance; an entry at rest waits for exactly one half |
| `SimEngineInv.SubmitCollectiveInv` | src/core/client.cc:1222-1331 | every outcome of a collective call keeps the engine invariant |
| `SimEngineInv.SubmitTransferInv` | src/core/client.cc:1338-1570 | every outcome of a point-to-point or payload call keeps the engine invariant and leaves windows, plans and memberships alone |
| `SimRuns.FreeBufferInv` | src/core/client.cc:6140-6150 | releasing a buffer keeps the invariant: it is refused while any slot names it |
| `SimRuns.FreeIoInv` | src/core/client.cc:8385-8394 | releasing an IO keeps the invariant: it is refused while its count is not zero |
| `SimRuns.RegisterInv` | src/core/client.cc:7562-7587 | registering target memory keeps the invariant |
| `SimRuns.UnregisterInv` | src/core/client.cc:7589-7600 | releasing a window keeps the invariant: it is refused while a plan names it |
| `SimRuns.CreatePlanInv` | src/core/client.cc:7625-7765 | every outcome of creating a plan keeps the invariant |
| `SimRuns.FreePlanInv` | src/core/client.cc:7767-7774 | releasing a plan keeps the invariant |
| `SimRuns.ReadInv` | src/core/client.cc:7793-7882 | every outcome of a storage read keeps the invariant; a direct receive finds its destination alive without the caller's help |
| `SimRuns.ForwardInv` | src/core/client.cc:7776-7791 | the forwarding thread keeps the invariant |
| `SimRuns.StepInv` | src/core/client.cc:790-1570 | every event keeps the engine invariant |
| `SimRuns.RunInv` | src/core/client.cc:790-1570 | so does every run |
| `SimSafety.ReferencesBalance` | src/core/client.cc:790-823 | in every reachable state: no released handle was ever touched, each buffer's count is the number of slots, windows and workers naming it, an IO's count is one exactly while one slot holds it and exactly while it is pending, and slots name only live handles |
| `SimSafety.FreeExactly` | src/core/client.cc:6140-6150 | a buffer is freed exactly when no slot names it |
| `SimSafety.PlansKeepTargets` | src/core/client.cc:7646-7774 | in every reachable state a plan's window and the buffer behind it cannot be released, a direct receive plan lies inside window and buffer, and a plan that requires the direct path or forbids staging is not host-staged |
| `SimSafety.PlanSurvives` | src/core/client.cc:7589-7600 | a plan alive after any run is the same plan on the same live buffer |
| `SimSafety.ReadFaultsExactly` | src/core/client.cc:7793-7882 | a read of a live plan touches freed memory if and only if it sends or stages a released block, or stages to a released destination |
| `SimSafety.CallsFaultExactly` | src/core/client.cc:7802-7843 | in every state that legal calls reach, that read is the only call that can go wrong: this is all callers owe beyond live handles |
| `SimDrain.RunKeys` | src/core/client.cc:1282-1287 | every key in the tables comes from an attached client: ranks inside the communicator, sizes that fit |
| `SimDrain.AllLetGo` | src/core/client.cc:7748-7764 | whoever holds a buffer besides the plan's own window, slots of unfinished transfers and collectives included, can be made to let go by a run during which the plan lives on |
| `SimDrain.KeepsDestinationExactly` | src/core/client.cc:7748-7764 | in every reachable state, a live plan keeps its destination alive over every continuation if and only if its window names it |
| `SimWitness.DanglingPlan` | src/core/client.cc:7717-7731 | the failing input: a reachable state with a live host-staged plan whose destination is gone, where reading the plan touches freed memory |
| `SimFifo.MeetTable` | src/core/client.cc:1404-1449 | a submission adds an entry under a free number and removes the entry under a taken one |
| `SimFifo.BacklogForever` | src/core/client.cc:1361-1449 | over any run of one attachment epoch, a direction's entries are exactly the numbers between the two counters, all of the leading kind |
| `SimFifo.SubmissionRefinesQueue` | src/core/client.cc:1361-1449 | every accepted submission acts on the waiting entries as a FIFO queue does |
| `SimFifo.ArrivalMeetsFront` | src/core/client.cc:1404-1449 | a submission meets the oldest waiting entry of the other kind, and nobody otherwise |
| `SimFifo.MatchDelivers` | src/core/client.cc:1036-1043 | a matching second half replaces exactly the receiver's range by the sender's snapshot and completes both IOs with its size and checksum |
| `SimFifo.MismatchFails` | src/core/client.cc:1404-1411 | a mismatching second half fails both IOs and moves no byte |
| `SimFifo.FirstHalfWaits` | src/core/client.cc:1413-1443 | a first half moves no byte and stays pending |
| `SimFifo.RejectedTakesNoNumber` | src/core/client.cc:1360-1378 | a rejected call takes no number and touches no queue |
| `SimFifo.FreshBacklog` | src/core/client.cc:5951-5973 | two freshly attached ranks with nothing of this direction pending start with an empty backlog, whatever else waits under the communicator's name |
| `SimDelivery.FinishDelivers` | src/core/client.cc:1154-1186 | with disjoint destinations every destination holds the output, every IO reports its size and checksum and no other byte changes; an unsupported type fails every IO and changes nothing |
| `SimReduction.ReducesByChain` | src/core/client.cc:1077-1089 | for any chain of accumulators that starts with rank 0's own element and applies the operator to each further rank's own element, in rank order and from the right: the result holds the end of the chain at the element's place |
| `SimReduction.GathersByRank` | src/core/client.cc:1171-1176 | rank r's bytes are the r-th part of a gather, which is as long as all ranks together |
| `SimReduction.UnsupportedExactly` | src/core/client.cc:1091-1142 | only reductions of several ranks over half-precision and unknown types have no result |
| `SimReduction.MisfitFailsAll` | src/core/client.cc:1297-1313 | a submission with other parameters, or of a rank that is already there, fails every IO of the entry and its own with invalid argument, moves no byte and removes the entry |
| `SimReduction.FitJoins` | src/core/client.cc:1315-1330 | any other submission puts exactly what it brought into its own slot and waits, while ranks are missing |
| `SimDelivery.GatheredRank` | src/core/client.cc:1171-1176 | rank r's payload is at place r of a gather |
| `SimMatching.FreshGroup` | src/core/client.cc:5951-5973 | freshly attached ranks start with nothing submitted, whatever else waits under the communicator's name |
| `SimMatching.PairedForever` | src/core/client.cc:1270-1330 | at every moment of every run of ranks that keep to one program, number k holds exactly the k-th submissions, as snapshotted, while some rank is missing |
| `SimMatching.LogIsSnapshots` | src/core/client.cc:1278-1281 | what a rank is recorded to have submitted is what its source held at the moment of that submission |
| `SimMatching.LastArrivalDelivers` | src/core/client.cc:1324-1330 | whichever rank comes last, the destinations receive the rank-order result of the snapshots of that round |
| `SimMatching.CollectivesDeliver` | src/core/client.cc:1270-1330 | over whole runs from a freshly attached group, with anything else in between: whenever a round's last rank submits, every destination receives the rank-order result of the bytes each rank's source held at its own submission, or every IO fails and nothing changes |
| `SimReduction.RoundReduces` | src/core/client.cc:1077-1186 | over whole runs: when a round of an all-reduce is complete, every rank's destination holds at each element's place the end of the chain over the bytes the ranks submitted, and every IO reports the size |
| `SimReduction.RoundGathers` | src/core/client.cc:1154-1186 | over whole runs: when a round of an all-gather is complete, every rank's destination holds every rank's bytes at that rank's place |
| `SimPassage.RunPasses` | src/core/client.cc:1404-1449 | over any run of one attachment epoch counters only grow, and an entry whose number neither side takes stays as it is |
| `SimDirect.SourceThenTarget` | src/core/client.cc:7835-7882 | a source plan is read, anything happens, and a target plan is read that takes the same number: the bytes snapshotted from the block are in the target range, nothing else changes and both IOs succeed |
| `SimDirect.TargetThenSource` | src/core/client.cc:7835-7882 | the same in the other order, with the block as it is when the source is read |
| `SimDirect.StagingDelivers` | src/core/client.cc:7526-7551 | host staging puts the whole block in the same place |
| `SimDirect.DirectAgreesWithStaging` | src/core/client.cc:7793-7882 | in both orders, whatever is in flight and whatever happens between the two reads, the second read leaves in every buffer the bytes that host staging of the covered bytes would have left at that moment |
| `SimDirect.AgreesOnWholeBlock` | src/core/client.cc:7526-7551 | against staging of the whole block, which is what the source always stages: agreement if and only if the target already holds the part the plan does not cover |
| `SimWitness.ShortPlanDiffers` | src/core/client.cc:7678-7688 | the failing input: a reachable state with a one-byte plan on a two-byte block where the two differ |
| `SimDirect.CreatedPlansMatch` | src/core/client.cc:7625-7765 | direct plans that two ranks create for each other and for one size satisfy what the agreement theorem asks for |
| `SimWitness.MatchedIsReachable` | src/core/client.cc:7625-7765 | a run from the empty engine reaches the state the agreement theorem starts from |
| `SimDirect.ReadsEnabled` | src/core/client.cc:7793-7800 | both plans can be read, first or second, whatever is in flight |
| `SimDirect.ForwardHandsOver` | src/core/client.cc:7776-7791 | the forwarding thread hands the inner outcome to the caller's IO and frees the inner one |
| `SimLibrary.ReduceTyped` | src/core/client.cc:1077-1089 | what the two loops return holds, for every element, the end of its chain of operator applications over the ranks |
| `SimLibrary.Gather` | src/core/client.cc:1171-1176 | the loop computes the rank-order concatenation |
| `SimLibrary.ComputeOutput` | src/core/client.cc:1091-1142 | one rank passes through, fp16 and unknown types have no reduction, everything else is folded |
| `SimLibrary.Library.FailPendingCollective` | src/core/client.cc:1144-1152 | the loop fails every arrived rank in order; the entry is gone |
| `SimLibrary.Library.DeliverCollective` | src/core/client.cc:1162-1185 | the loop delivers to every rank in order; the entry is gone |
| `SimAdmission.CollectiveAdmittedExactly` | src/core/client.cc:1233-1268 | a collective is admitted exactly when the client is attached, operator and type are known, the sizes fit 64 bits, both ranges lie inside their buffers and both buffers are simulated memory; otherwise it is an invalid argument or unsupported, and when which |
| `SimAdmission.CollectiveJoins` | src/core/client.cc:1270-1287 | an admitted collective goes to the entry of its communicator, size, kind and next number, with the parameters it was called with and the bytes its source holds |
| `SimAdmission.CollectiveNotAdmitted` | src/core/client.cc:1233-1268 | any other call returns an IO that says unsupported, or an error, and changes nothing else |
| `SimAdmission.TransferAdmittedExactly` | src/core/client.cc:1346-1378 | a send or receive is admitted exactly under the conditions spelled out, with the kinds of memory each table takes; sender and receiver then name one entry by both ranks and their own number, with the parameters and bytes of the call |
| `SimAdmission.TransferNotAdmitted` | src/core/client.cc:1346-1371 | any other call returns an IO that says unsupported, or an error, and changes nothing else |
| `SimAdmission.PlanAdmittedExactly` | src/core/client.cc:7636-7765 | a storage plan is made exactly when path, role, handles, owners, kinds, ranges, window, peer and communicator are as spelled out; it then has the path, role and byte count that options and attachment ask for; every refusal changes nothing and is unsupported or invalid exactly as spelled out |
| `SimAdmission.DefaultOptionsPlan` | src/core/client.cc:7637-7662 | with the default options an attached client sends its whole block directly, and a client without a communicator stages it |
| `SimLibrary.ReadDecided` | src/core/client.cc:7793-7882 | how a read of a plan is answered, by plan, owners, ranges, kind of memory and communicator |
| `SimLibrary.Library.OpenClient` | src/core/client.cc:5872-5914 | keeps the invariant; the new client belongs to no communicator and every other client stays as it is |
| `SimLibrary.Library.AttachSimComm` | src/core/client.cc:5951-5973 | keeps the invariant; succeeds exactly for a named communicator and a rank inside it, which are recorded; every counter is zero |
| `SimLibrary.Library.ReleaseUnusedBuffer` | src/core/client.cc:6140-6150 | keeps the invariant; succeeds exactly when no slot, window or worker names the buffer; otherwise changes nothing |
| `SimLibrary.Library.ReleaseIo` | src/core/client.cc:8385-8394 | keeps the invariant; succeeds exactly when the IO is complete; otherwise changes nothing |
| `SimLibrary.Library.SubmitSimCollective` | src/core/client.cc:1222-1331 | keeps the invariant; is rejected without a trace or answered by a new IO; takes the client's next number exactly when admitted |
| `SimLibrary.Library.SubmitSimTransfer` | src/core/client.cc:1338-1570 | the same for both pair tables; no entry is left with both halves or with none |
| `SimLibrary.Library.RegisterTargetMemory` | src/core/client.cc:7562-7587 | keeps the invariant; succeeds exactly for owned simulated HBM inside the buffer; the window is recorded as given, and from then on releasing the buffer is refused |
| `SimLibrary.Library.ReleaseTargetWindow` | src/core/client.cc:7589-7600 | keeps the invariant; succeeds exactly when no plan names the window |
| `SimLibrary.Library.CreateDirectPlan` | src/core/client.cc:7625-7765 | keeps the invariant; succeeds exactly when the plan is admitted and is then the plan asked for; receives inside its buffer, and makes releasing its window and the buffer behind it fail; a refusal changes nothing and gives the reason |
| `SimLibrary.Library.ReleaseDirectPlan` | src/core/client.cc:7767-7774 | keeps the invariant; the plan is gone, and its window can be released exactly when no other plan names it |
| `SimLibrary.Library.ReadStorageToHbm` | src/core/client.cc:7793-7882 | keeps the invariant for every plan whose block and destination the caller kept; returns an IO that exists, or changes nothing; leaves plans and windows alone |
| `SimLibrary.Library.CompleteFromInner` | src/core/client.cc:7776-7791 | keeps the invariant; the caller's IO has the inner outcome and the inner IO is gone |
| `SimLibrary.LifeOf` | src/core/client.cc:790-1570 | any sequence of calls and thread steps on a new library is a run of the state machine: it ends with every count in balance and nothing released ever touched |
| `PayloadPlan.BuildPairCopyPlan` | src/hcomm_payload/payload_backend.cc:160-259 | a plan is made exactly for a proper pair, a payload and, on the receiving side, a supported path; it is the role's step list; otherwise the first failed check is reported |
| `PairCopy.InvStep` | src/hcomm_payload/payload_backend.cc:221-256 | every step of either rank and every landing of a posted transfer keeps the protocol invariant |
| `PairCopy.Progress` | src/hcomm_payload/payload_backend.cc:221-256 | an unfinished transfer always has an enabled step |
| `PairCopy.RunsTerminate` | src/hcomm_payload/payload_backend.cc:221-256 | every run of any plan pair is bounded by its step count |
| `PairCopy.SafeRunsDeliver` | src/hcomm_payload/payload_backend.cc:221-256 | under safe options every run of any number of rounds is correct at every moment, never sets a flag that is still set, gets stuck only at the end, and ends with every output equal to its input |
| `PairCopy.LateRead` | tools/README.md:408-408 | a posted read without a fence delivers stale data in some run |
| `PairCopy.LateWrite` | tools/README.md:408-408 | a posted write overtaken by a separate notify delivers stale data in some run |
| `PairCopy.PrimeClobbers` | src/core/client.cc:2779-2807 | in the write modes the receiver's priming can overwrite the payload in some run |
| `PairCopy.DeliveryIsExact` | src/core/client.cc:4476-4477 | for every mode, completion kind, channel and priming: delivery in every run if and only if the options are safe |
| `HostPlans.HostDeliversExactly` | src/core/client.cc:2060-2092 | for every combination of channel options, protocol, backend, channel and priming: the host's plans deliver in every run if and only if, on a channel where data can be overtaken, it is RoCE or a fence is forced or the write carries its notify, and, with priming, nobody writes the peer's buffer |
| `HostPlans.RocePlansDeliver` | src/core/client.cc:2083-2089 | every plan the host makes for RoCE delivers in every run on the weak channel |
| `HostPlans.FenceExactly` | src/core/client.cc:2083-2089 | plan and kernel fence exactly on the posting side, and exactly if a fence is forced, the protocol is RoCE, or a write-with-notify goes through the non-blocking backend |
| `HostPlans.PlanSteps` | src/core/client.cc:2062-2073 | the other steps of both sides, by the channel options |
| `HostPlans.DescriptorFields` | src/core/client.cc:2271-2348 | every field of the descriptor and every flag of its mode word, by the channel options |
| `HostPlans.ModeWordValue` | src/core/client.cc:2301-2325 | the mode word as a sum of its bits |
| `TraceGate.TracePayloadEvent` | custom_ops/hcomm_payload_copy/aicpu/payload_copy_kernel.cc:238-260 | the recorder writes event and return into the slot of the count and advances it |
| `TraceGate.DecodeRing` | src/core/client.cc:3430-3484 | the decoding loops return the ring in order of age |
| `TraceGate.DecodeRecorded` | src/core/client.cc:3430-3484 | decoding any recorded log gives its last min(n mod 2^32, 32) events and returns, in order |
| `TraceGate.DecodeIsExact` | src/core/client.cc:3430-3484 | it is the last min(n, 32) if and only if the count has not wrapped onto a value below 32 |
| `TraceGate.WrappedTraceLooksEmpty` | src/core/client.cc:3430-3484 | the failing input: after exactly 2^32 events the ring decodes as empty |
| `TraceGate.PayloadTraceContainsEvent` | src/core/client.cc:3486-3503 | the search finds an event exactly when the decoded ring holds it |
| `TraceGate.ExpectedPayloadTraceEvents` | src/core/client.cc:3594-3687 | the branches build exactly brackets around the body the mode word asks for, and never more than the ring holds |
| `TraceGate.ExpectedFits` | src/core/client.cc:3594-3687 | no expected trace can be truncated by the ring, whatever the header says |
| `TraceGate.ModeWordReads` | src/core/client.cc:2271-2348 | every flag and the completion mode read back from the mode word as they were put in |
| `TraceGate.AcceptedTraceIsPlan` | src/core/client.cc:4071-4113 | a trace that is accepted and whose header matches the descriptor is, without brackets and with its pairs joined, exactly the plan builder's step list |
| `TraceGate.AcceptedThreadEvents` | src/core/client.cc:4071-4090 | an accepted trace shows thread notifies exactly when they were asked for |
| `TraceGate.AcceptedTraceReports` | src/core/client.cc:3571-3803 | acceptance implies that the order, return-order and primitive-count checks pass and that there is no first error |
| `TraceKernel.KernelRunsPlan` | custom_ops/hcomm_payload_copy/aicpu/payload_copy_kernel.cc:327-538 | the primitives the kernel issues for a filled descriptor are the plan builder's steps |
| `TraceKernel.ResultIsClean` | custom_ops/hcomm_payload_copy/aicpu/payload_copy_kernel.cc:540-687 | the kernel reports success exactly when every primitive it issued returned zero |
| `TraceKernel.FirstFailureReported` | custom_ops/hcomm_payload_copy/aicpu/payload_copy_kernel.cc:540-687 | a run in which a primitive of the body fails reports the failure of an opening bracket if there is one, and otherwise the first failing primitive |
| `TraceKernel.StepCodes` | custom_ops/hcomm_payload_copy/include/flume_hcomm_notify_only_abi.h:129-141 | the code of each failing primitive |
| `TraceKernel.KernelLogFits` | custom_ops/hcomm_payload_copy/aicpu/payload_copy_kernel.cc:540-687 | no run of the kernel records more events than the ring holds |
| `TraceKernel.GateAcceptsCleanRuns` | src/core/client.cc:4071-4090 | the gate accepts the kernel's trace if and only if the descriptor is valid, the run was clean and the thread-notify setting agrees |
| `Wire.CommandRoundTrip` | src/roce_storage/roce_storage.cc:106-160 | commands survive the wire |
| `Wire.CommandSendable` | src/roce_storage/roce_storage.cc:106-116 | a command can be sent exactly with id, length, address and key, and with remote-write access for a read or remote-read access for a write |
| `Wire.CommandLayout` | src/roce_storage/roce_storage.cc:117-131 | every field of a command at its place in the 64 bytes |
| `Wire.CommandCanonical` | src/roce_storage/roce_storage.cc:106-160 | the decoder accepts exactly the encoder's outputs, and encoding what it decoded gives the same bytes |
| `Wire.CompletionRoundTrip` | src/roce_storage/roce_storage.cc:162-197 | a completion survives the wire if and only if its status fits in 16 bits |
| `Wire.CompletionLayout` | src/roce_storage/roce_storage.cc:162-175 | every field of a completion at its place in the 40 bytes |
| `Fields.EncodeByte` | src/protocol/framing.cc:64-82 | little-endian fields start with the least significant byte, big-endian fields end with it |
| `Wire.CompletionCanonical` | src/roce_storage/roce_storage.cc:162-197 | encoding a decoded completion gives the same bytes |
| `Wire.TruncatedStatusLooksSuccessful` | src/roce_storage/roce_storage.cc:168-168 | a status of 65536 arrives as success |
| `Stream.Socket.WriteAll` | src/roce_storage/control_channel.cc:20-46 | whatever the chunks and interrupts, everything is sent, or a prefix if the connection breaks |
| `Stream.Socket.ReadAll` | src/roce_storage/control_channel.cc:48-71 | exactly the next bytes of the stream; a clean close is reported exactly when nothing was left, an error in between |
| `ControlChannel.SendCommand` | src/roce_storage/control_channel.cc:73-80 | an invalid command is refused and sends nothing; a valid one is sent whole |
| `ControlChannel.ReceiveCommand` | src/roce_storage/control_channel.cc:82-95 | the next 64 bytes, exactly when they encode a command |
| `ControlChannel.SendCompletion` | src/roce_storage/control_channel.cc:97-104 | a completion without an id is refused; any other is sent whole |
| `ControlChannel.ReceiveCompletion` | src/roce_storage/control_channel.cc:106-120 | the next 40 bytes, exactly when they encode a completion |
| `ControlStream.ProxyStream` | src/roce_storage/control_proxy.cc:61-91 | on any two byte streams, in any chunks and with breaks on either side: what is taken is the start of what was sent, exactly the reads go upstream and exactly one answer per command goes down, in order; a clean end means the whole stream was served and nothing else sent; on unbroken connections it fails only where a stream is out of order; stats are message counts times wire sizes |
| `ControlStream.AnswersEcho` | src/roce_storage/control_proxy.cc:66-88 | each of those answers carries its command's id |
| `ControlStream.TransparentOnTheWire` | apps/flume-roce-npu-relay-server.cc:230-281 | the bytes the client gets through the proxy are those the relay itself would have sent |
| `ControlProxy.ProxySession` | src/roce_storage/control_proxy.cc:10-91 | nothing goes upstream for a session it cannot carry; the response gains the proxy bit; a request that does not reach the upstream and a response that does not reach the client end the session with exactly the bytes sent so far counted; stats are message counts times wire sizes and no payload bytes |
| `ControlProxy.AnswersInOrder` | src/roce_storage/control_proxy.cc:61-91 | one answer per command in order with its own id up to a break; exactly the reads go upstream, in order |
| `ControlProxy.EchoNeverBreaks` | src/roce_storage/control_proxy.cc:78-88 | an upstream that echoes ids never breaks the session |
| `ControlProxy.ProxyIsTransparent` | apps/flume-roce-npu-relay-server.cc:230-281 | in front of the relay the client gets the same completions and the relay ends in the same state as without the proxy |
| `ControlProxy.HandshakeDiffersInOneBit` | src/roce_storage/control_proxy.cc:53-54 | the session response differs from the relay's in the proxy bit and nothing else |
| `ControlProxy.MarkedBit` | src/roce_storage/control_proxy.cc:53-53 | marking sets that bit and keeps every other |
| `StorageServer.Server.HandleCommand` | apps/flume-roce-storage-server.cc:176-214 | out of bounds is invalid, a write without permission unsupported, and every other read and write succeeds exactly if its memory is reachable and its steps work |
| `StorageServer.ServedExactly` | apps/flume-roce-storage-server.cc:176-214 | the same with the data: success moves exactly the command's bytes and carries their number and checksum, failure carries none; a read does not depend on the write permission |
| `StorageServer.RelayServedExactly` | apps/flume-roce-npu-relay-server.cc:230-281 | the same for the relay, which refuses everything but reads |
| `StorageServer.Server.ServeClient` | apps/flume-roce-storage-server.cc:157-246 | the command loop is the transition applied in order |
| `StorageServer.ServeFrame` | apps/flume-roce-storage-server.cc:176-214 | storage changes only for an admitted write and only in its range, HBM only in the command's window, and a failed command reports no bytes |
| `StorageServer.WriteGate` | apps/flume-roce-storage-server.cc:183-185 | no command sequence changes storage when writes are not allowed, whatever fails |
| `StorageServer.AnswersInOrder` | apps/flume-roce-storage-server.cc:157-246 | one answer per command, in order, with its own id |
| `StorageServer.CheckedNeverInvalid` | src/roce_storage/host_ra_session.cc:228-243 | invalid-request is answered exactly for a foreign object or a range the client's own checks reject |
| `StorageServer.SwapRestores` | apps/flume-roce-storage-server.cc:203-214 | a swap-out, any use of client memory, any requests that do not write the range, and a swap-in restore the bytes; no other storage byte changes |
| `StorageClient.SuccessIsTrue` | src/roce_storage/host_ra_session.cc:309-349 | a success the client sees, through the 16-bit status and over TCP or device memory, is a success the server meant |
| `StorageClient.ClientSwapRestores` | src/roce_storage/host_ra_session.cc:309-349 | if the client saw its swap-out and its swap-in succeed, its memory holds again what it swapped out |
| `ResourceLog.ReleasedAtMostOnce` | src/roce_storage/host_ra_session.cc:390-415 | in an orderly log every release gives back something acquired and not yet released |
| `ResourceLog.DependentsFirst` | src/roce_storage/host_ra_session.cc:390-415 | nothing is released before what needs it |
| `ResourceLog.NothingLeaks` | src/roce_storage/host_ra_session.cc:390-415 | if nothing is held at the end, everything acquired was released |
| `HostRa.Session.Cleanup` | src/roce_storage/host_ra_session.cc:390-415 | releases everything held, dependents first |
| `HostRa.Session.Open` | src/roce_storage/host_ra_session.cc:79-222 | connected exactly when every call on the way works, otherwise failed with everything released; a second open changes nothing |
| `HostRa.Session.PollCompletion` | src/roce_storage/host_ra_session.cc:294-307 | the polling loop ends with the first completion of the request, a failed copy or nothing |
| `HostRa.PolledExactly` | src/roce_storage/host_ra_session.cc:294-307 | behind any number of foreign and undecodable polls the request's own completion is found; a failed copy or the end of the polls are the only other ends |
| `HostRa.ExchangeSucceeds` | src/roce_storage/host_ra_session.cc:258-307 | when the exchange brings the request's success, over TCP and through device memory |
| `HostRa.Session.SubmitAndWait` | src/roce_storage/host_ra_session.cc:224-350 | the payload region is registered exactly for a request in order, spelled out, and always deregistered; success exactly for the request's own complete completion, received or polled; no request stays in flight |
| `HostRa.Session.Close` | src/roce_storage/host_ra_session.cc:352-361 | always succeeds between requests and leaves nothing held |
| `HostRa.LifeOf` | src/roce_storage/host_ra_session.cc:76-77 | any calls in any order with any failures, then destruction: an orderly log that ends empty |
| `HostRa.OrderlySession` | src/roce_storage/host_ra_session.cc:390-415 | such a log releases every resource exactly once, after everything that needs it |
| `RoceSession.NextInv` | src/core/client.cc:8011-8089 | every step of every thread keeps the session invariant |
| `RoceSession.SessionSafe` | src/core/client.cc:8011-8089 | in every interleaving: one active worker at most, no close while it is, no touch of a freed session, buffer references equal to the calls holding one, each released and completed exactly as often as retained |
| `RoceSession.CloseOnlyFromIdle` | src/core/client.cc:7976-7993 | a close gets past the word exactly when no call owns the session |
| `RoceSession.RequestOnlyFromIdle` | src/core/client.cc:8011-8030 | a request is admitted exactly when no call owns the session, and a refused one changes nothing |
| `RoceSession.RequestCompletes` | src/core/client.cc:8031-8089 | an admitted request that passes its checks ends, by its own steps alone, with one retain, one release and one completion and the session idle, whether or not its worker can be started |
| `RoceSession.RequestRefused` | src/core/client.cc:8031-8050 | one that fails its checks touches neither buffer nor IO and leaves the session idle |
| `RoceSession.CloseEnds` | src/core/client.cc:7976-7993 | a close frees the session if the transport closes and leaves it idle if not |
| `RoceSession.NoTouchAfterIdle` | src/core/client.cc:8070-8080 | after publishing idle a call never touches the session again |
| `RoceSession.CallsFinish` | src/core/client.cc:8011-8089 | no call blocks or loops |
| `Framing.FrameRoundTrip` | src/protocol/framing.cc:86-151 | a frame is read back from any stream that starts with it |
| `Framing.FrameLayout` | src/protocol/framing.cc:86-108 | every field of a frame header at its place in the 28 bytes, and the body after it |
| `Framing.FrameAcceptedExactly` | src/protocol/framing.cc:110-151 | a stream starts with a frame exactly if magic, version and size are in order and the body is there; type, id and body are taken from their places |
| `Framing.TruncatedFrame` | src/protocol/framing.cc:110-151 | a strict prefix of a frame is no frame |
| `Framing.FramesRoundTrip` | src/protocol/framing.cc:86-151 | of any prefix of a written stream exactly the whole frames are read back, unchanged and in order |
| `Framing.WriteFrame` | src/protocol/framing.cc:86-108 | an oversized body is refused and sends nothing; any other frame is sent whole |
| `Framing.ReadFrame` | src/protocol/framing.cc:110-151 | the next frame of the stream, whatever the chunks |
| `Framing.ReadFrames` | src/agent/storage_agent.cc:206-206 | reading until there is none returns the frames of the stream, or a prefix if it breaks |
| `Framing.Transmit` | src/protocol/framing.cc:16-62 | end to end, for any chunking on both sides and any cut, exactly the frames that arrived whole are received |
| `Framing.FieldRoundTrip` | src/protocol/framing.cc:179-182 | a field is read back if and only if it is not a text of 4 GiB or more, whose 32-bit size is cut |
| `Framing.FieldsRoundTrip` | src/protocol/framing.cc:153-246 | any list of appended fields is read back in order, if and only if it holds no such text |
| `Framing.IntegerBytes` | src/protocol/framing.cc:153-177 | integers are appended most significant byte first |
| `Framing.TextBytes` | src/protocol/framing.cc:179-182 | a text is its 32-bit size and itself |
| `Framing.LoadInt` | src/protocol/framing.cc:64-82 | the load loop computes the big-endian value |
| `Framing.Reader.ReadRaw` | src/protocol/framing.cc:235-242 | succeeds exactly when the bytes are there, and the offset never passes the end |
| `Framing.Reader.ReadField` | src/protocol/framing.cc:186-233 | every kind of field is read as the parser defines it |
| `Agent.ReadFits` | src/agent/storage_agent.cc:19-21 | a successful read response is twenty bytes longer than its payload and always fits a frame |
| `Agent.ReadBack` | src/agent/storage_agent.cc:310-324 | the client finds status, size, checksum and payload in it |
| `Agent.StorageAgent.Accept` | src/agent/storage_agent.cc:160-190 | a connection accepted while stopping is closed at once; any other is served |
| `Agent.StorageAgent.Start` | src/agent/storage_agent.cc:52-112 | everything stays accounted for whatever fails; only the running flag is looked at; a start over a serving thread that was not joined ends the program |
| `Agent.StorageAgent.BeginStop` | src/agent/storage_agent.cc:115-118 | a stop of a running agent lowers the flag while connections are being served, any other does nothing, and everything stays accounted for |
| `Agent.StorageAgent.HandleRequest` | src/agent/storage_agent.cc:206-358 | every request becomes what its type and fields ask for: a read of the named file at that offset and length on a duplicate of its descriptor, the entry of the opened path, the closing of the named file; or it is answered at once with the type, id, code and text that name the check it failed; the response is sent exactly if it fits and the peer takes it |
| `Agent.RequestMeans` | src/agent/storage_agent.cc:206-358 | the same of the decision alone, for every request body there is |
| `Agent.EveryReadCovered` | src/agent/storage_agent.cc:260-273 | a read request is malformed exactly if it is not three words |
| `Agent.EveryOtherCovered` | src/agent/storage_agent.cc:219-229 | the same for open and close requests |
| `Agent.StorageAgent.FinishOpen` | src/agent/storage_agent.cc:236-256 | the opened file gets a number that was never given out before, and the response to its request carries that number and the size |
| `Agent.StorageAgent.FinishRead` | src/agent/storage_agent.cc:305-328 | the duplicated descriptor is closed whatever came of the read; the response carries what the store gives for the request's file, offset and length, with number of bytes and checksum, or its error; a successful one always fits |
| `Agent.StorageAgent.HandleClose` | src/agent/storage_agent.cc:330-352 | a known file is closed and leaves the table; every request is answered |
| `Agent.StorageAgent.CloseListener` | src/agent/storage_agent.cc:119-151 | once its threads are joined, the stop closes whatever listener it finds |
| `Agent.StorageAgent.FinishStop` | src/agent/storage_agent.cc:153-157 | then every file left in the table is closed |
| `AgentState.LostExactly` | src/agent/storage_agent.cc:51-157 | in every state: a listener is lost if and only if a start fell between the flag and the closing of the listener, and a lost descriptor stays open |
| `AgentState.StoppedForGood` | src/agent/storage_agent.cc:114-157 | after the last stop the open descriptors are the lost ones and every request has its one response |
| `Agent.LifeOf` | src/agent/storage_agent.cc:51-358 | any interleaving of connections, accepts, starts and stops with any failures, then a stop: every descriptor was closed exactly once if and only if no start fell between a stop's flag and its closing of the listener; every request taken has exactly one response of its type and id unless such a start ended the program; no file number was given out twice |
| `Agent.LostListener` | src/agent/storage_agent.cc:52-57 | the failing input: a start after the serving thread was joined and before the listener was closed leaves the first listener open for good |
| `Nvme.BitTestExact` | src/nvme_storage/nvme_hbm_canary.cc:13-15 | the bit test accepts exactly the powers of two |
| `Nvme.PlannedExactly` | src/nvme_storage/nvme_hbm_canary.cc:19-58 | for all 64-bit inputs a plan is made exactly for requests that are admissible in exact arithmetic |
| `Nvme.PlanMeans` | src/nvme_storage/nvme_hbm_canary.cc:60-70 | no product wrapped, a whole-block range inside the namespace, the LBA halves recombine, a 16-bit 0's-based count, writes beyond the first MiB |

## Left out

- HCCL, ACL, HCOMM, verbs and CANN calls, dynamic loading and kernel launch: foreign code, here only as outcomes.
- A3 symmetric registration: a mismatch erases the entry after earlier ranks have succeeded, so there is no agreement to state.
- Point-to-point pairing with three or more ranks, and collectives after a mismatch: counters are per client, not per peer, and stragglers open new entries.
- Re-attaching to a communicator with pending entries: the FIFO and matching theorems are for one attachment epoch; the reference theorem covers it.
- Aliased host memory: two buffers registered over the same bytes are two buffers here.
- The calls that wrap a simulated submission (real-HBM branches, null arguments, their duplicate range checks) and the parsing of option structures of older sizes.
- `BuildNotifyOnlyPlan`, detail and marker strings, capability reports: easy or formatting.
- ControlProxy.ProxyCommands: works on decoded messages and does not model a downstream write that fails; `ControlStream.ProxyStream` has the bytes and the breaks.
- The session request and response codecs: the proxy model passes their fields through.
- HostRa.Session.AcquireControl: takes a successful device allocation to return memory, which the source does not check.
- Agent.StorageAgent.Start: one atomic step, and so are the steps of a stop; once a start has come in between, a stop is allowed to go on without waiting for its connections, which only adds runs.
- Agent.StorageAgent.HandleRequest: each connection step between two lock regions is atomic; descriptor numbers are not reused.
- SimState.FinishIo: completing an IO is one step; the source drops the count under the IO's lock and notifies waiters afterwards, so a waiter that sees the outcome and releases the IO at once can do so before the notify touches it (src/core/client.cc:808-823).
- Closing a client and attaching a real communicator, which detaches the simulated one.
- Memory order, condition variables, timeouts and thread scheduling beyond interleaving.
- Device data probes, status words and echo words of the kernel, and the host-side prime fingerprints.
