/** The device kernel that runs one side of a payload copy and records its trace. Every
    primitive is a foreign call whose return code is given by an oracle. The gate accepts
    exactly the traces of the clean runs. */
module TraceKernel {
  import opened PayloadPlan
  import opened TraceGate

  datatype Call = OnBracket(bracket: Bracket) | OnStep(step: Step)

  /** What each foreign call returns; zero is success. */
  type Oracle = Call -> u32

  datatype Run = Run(desc: Desc, valid: bool, thread: bool, nbi: bool)

  function Opt(on: bool, steps: seq<Step>): seq<Step> { if on then steps else [] }

  /** The primitives the kernel runs, read from the descriptor words. */
  function KernelSteps(d: Desc): seq<Step> {
    var write, notify, drain, direct := WritePath(d.mode), WriteNotify(d.mode), Drains(d.mode), d.recvPath == 1;
    if d.role == 0 then
      [CopyInputToBuffer] + Opt(write, [if notify then WriteRemoteNotify else WriteRemote]) +
      Opt(write && drain, [Fence]) + Opt(!notify, [RecordReady]) + [WaitDone]
    else
      [WaitReady] + Opt(!write, [if direct then ReadRemoteToOutput else ReadRemoteToBuffer]) +
      Opt(!write && drain, [Fence]) + Opt(write || !direct, [CopyBufferToOutput]) + [RecordDone]
  }

  function RoleOf(d: Desc): Role { if d.role == 0 then Send else Recv }

  /** Kernel and plan builder agree. */
  lemma KernelRunsPlan(role: Role, localRank: u32, peerRank: u32, bytes: nat, p: Probe, roce: bool, host: bool)
    ensures KernelSteps(FillDesc(role, localRank, peerRank, bytes, p, roce, host)) ==
            Steps(role, PlanOptions(p, roce, host))
  {
    ModeWordReads(p, roce, host);
  }

  function Logged(enter: u32, ret: u32): seq<Entry>
    requires enter + 1 < RING
  {
    [Entry(enter, NOT_RETURNED), Entry(enter + 1, ret)]
  }

  function BracketLog(on: bool, b: Bracket, rets: Oracle): seq<Entry> {
    if on then Logged(BracketEnter(b), rets(OnBracket(b))) else []
  }

  /** The body stops at the first primitive that fails. */
  function BodyLog(role: Role, nbi: bool, steps: seq<Step>, rets: Oracle): seq<Entry> {
    if steps == [] then []
    else
      Logged(StepEnter(role, nbi, steps[0]), rets(OnStep(steps[0]))) +
      if rets(OnStep(steps[0])) != 0 then [] else BodyLog(role, nbi, steps[1..], rets)
  }

  function StepFailure(step: Step): u32 {
    match step
    case CopyInputToBuffer => 5
    case RecordReady => 6
    case WaitDone => 7
    case WaitReady => 8
    case ReadRemoteToBuffer => 9
    case ReadRemoteToOutput => 9
    case RecordDone => 10
    case Fence => 13
    case CopyBufferToOutput => 16
    case WriteRemote => 17
    case WriteRemoteNotify => 17
  }

  function BodyStatus(steps: seq<Step>, rets: Oracle): u32 {
    if steps == [] then 0
    else if rets(OnStep(steps[0])) != 0 then StepFailure(steps[0])
    else BodyStatus(steps[1..], rets)
  }

  predicate Batch(r: Run) { r.desc.batchMode != 1 }
  predicate Comm(r: Run) { !SkipsComm(r.desc.mode) }

  function Acquired(r: Run, rets: Oracle): u32 {
    if Comm(r) && rets(OnBracket(CommAcquire)) != 0 then 14 else 0
  }
  function Started(r: Run, rets: Oracle): u32 {
    if Batch(r) && rets(OnBracket(BatchStart)) != 0 then 4 else 0
  }
  function Released(r: Run, rets: Oracle): u32 {
    if Started(r, rets) != 0 then Started(r, rets)
    else if r.thread && rets(OnBracket(ThreadWait)) != 0 then 3 else 0
  }
  function Copied(r: Run, rets: Oracle): u32 {
    if Released(r, rets) != 0 then Released(r, rets) else BodyStatus(KernelSteps(r.desc), rets)
  }
  /** The result once the closing brackets have run; the first failure wins. */
  function Closed(r: Run, rets: Oracle): u32 {
    if Copied(r, rets) != 0 then Copied(r, rets)
    else if r.thread && rets(OnBracket(ThreadRecord)) != 0 then 12
    else if Batch(r) && rets(OnBracket(BatchEnd)) != 0 then 11
    else if Comm(r) && rets(OnBracket(CommRelease)) != 0 then 15
    else 0
  }

  function Result(r: Run, rets: Oracle): u32 {
    if !r.valid then 1 else if Acquired(r, rets) != 0 then 14 else Closed(r, rets)
  }

  /** The events of a run whose descriptor is valid and whose communicator was acquired. */
  function InnerLog(r: Run, rets: Oracle): seq<Entry> {
    BracketLog(Batch(r), BatchStart, rets) +
    BracketLog(r.thread && Started(r, rets) == 0, ThreadWait, rets) +
    (if Released(r, rets) == 0 then BodyLog(RoleOf(r.desc), r.nbi, KernelSteps(r.desc), rets) else []) +
    BracketLog(r.thread, ThreadRecord, rets) +
    BracketLog(Batch(r) && Started(r, rets) == 0, BatchEnd, rets) +
    BracketLog(Comm(r), CommRelease, rets)
  }

  function KernelLog(r: Run, rets: Oracle): seq<Entry> {
    [Entry(KERNEL_ENTER, NOT_RETURNED)] +
    (if !r.valid then []
     else BracketLog(Comm(r), CommAcquire, rets) + if Acquired(r, rets) == 0 then InnerLog(r, rets) else []) +
    [Entry(KERNEL_EXIT, 0)]
  }

  function InitTrace(d: Desc): (w: seq<u32>)
    ensures IsTrace(w) && w[4] == 0
  {
    var blank: seq<u32> := seq(WORDS, i => NOT_RETURNED);
    blank[0 := SCHEMA][1 := WORDS][2 := 0][4 := 0][5 := d.role][6 := d.localRank][7 := d.peerRank]
         [8 := d.bytes % RING][9 := d.bytes / RING % RING][10 := d.batchMode][11 := d.recvPath][12 := d.mode]
         [13 := d.readyIdx][14 := d.doneIdx]
  }

  /** The trace words a run leaves behind; `ret` is the return code it reports on failure. */
  function KernelWords(r: Run, rets: Oracle, ret: u32): (w: seq<u32>)
    ensures IsTrace(w)
  {
    var result := Result(r, rets);
    RecordAll(InitTrace(r.desc), KernelLog(r, rets))
      [15 := result][16 := result][17 := if result == 0 then 0 else ret]
  }

  /** Every call of the run returned success. */
  predicate Clean(r: Run, rets: Oracle) {
    && (Comm(r) ==> rets(OnBracket(CommAcquire)) == 0 && rets(OnBracket(CommRelease)) == 0)
    && (Batch(r) ==> rets(OnBracket(BatchStart)) == 0 && rets(OnBracket(BatchEnd)) == 0)
    && (r.thread ==> rets(OnBracket(ThreadWait)) == 0 && rets(OnBracket(ThreadRecord)) == 0)
    && (forall i :: 0 <= i < |KernelSteps(r.desc)| ==> rets(OnStep(KernelSteps(r.desc)[i])) == 0)
  }

  lemma {:induction false} BodyStatusClean(steps: seq<Step>, rets: Oracle)
    ensures BodyStatus(steps, rets) == 0 <==> forall i :: 0 <= i < |steps| ==> rets(OnStep(steps[i])) == 0
  {
    if steps != [] {
      BodyStatusClean(steps[1..], rets);
      if rets(OnStep(steps[0])) == 0 {
        assert forall i :: 0 < i < |steps| ==> steps[i] == steps[1..][i - 1];
      }
    }
  }

  lemma ResultIsClean(r: Run, rets: Oracle)
    ensures Result(r, rets) == 0 <==> r.valid && Clean(r, rets)
  {
    BodyStatusClean(KernelSteps(r.desc), rets);
  }

  /** The code of each primitive that fails. */
  lemma StepCodes(step: Step)
    ensures StepFailure(step) ==
            if step == CopyInputToBuffer then 5 else if step == RecordReady then 6 else if step == WaitDone then 7
            else if step == WaitReady then 8 else if step == ReadRemoteToBuffer || step == ReadRemoteToOutput then 9
            else if step == RecordDone then 10 else if step == Fence then 13 else if step == CopyBufferToOutput then 16
            else 17
  {
  }

  /** A run that fails reports its first failure: of the descriptor, of the opening brackets, of
      the first primitive of the body that fails, or of the closing brackets. */
  lemma {:induction false} FirstFailureReported(r: Run, rets: Oracle, n: nat)
    requires r.valid && n < |KernelSteps(r.desc)| && rets(OnStep(KernelSteps(r.desc)[n])) != 0
    requires forall i :: 0 <= i < n ==> rets(OnStep(KernelSteps(r.desc)[i])) == 0
    ensures Result(r, rets) ==
            if !SkipsComm(r.desc.mode) && rets(OnBracket(CommAcquire)) != 0 then 14
            else if r.desc.batchMode != 1 && rets(OnBracket(BatchStart)) != 0 then 4
            else if r.thread && rets(OnBracket(ThreadWait)) != 0 then 3
            else StepFailure(KernelSteps(r.desc)[n])
  {
    BodyFailsAt(KernelSteps(r.desc), rets, n);
  }

  lemma {:induction false} BodyFailsAt(steps: seq<Step>, rets: Oracle, n: nat)
    requires n < |steps| && rets(OnStep(steps[n])) != 0 && forall i :: 0 <= i < n ==> rets(OnStep(steps[i])) == 0
    ensures BodyStatus(steps, rets) == StepFailure(steps[n]) != 0
  {
    if n > 0 {
      assert rets(OnStep(steps[0])) == 0;
      forall i | 0 <= i < n - 1
        ensures rets(OnStep(steps[1..][i])) == 0
      {
        assert steps[1..][i] == steps[i + 1];
      }
      BodyFailsAt(steps[1..], rets, n - 1);
    }
  }

  // ---------------------------------------------------------------------------
  // The log of a clean run

  /** Every entry carries the return code the gate demands of its event. */
  predicate WellReturned(log: seq<Entry>) {
    forall i :: 0 <= i < |log| ==> log[i].ret == if IsEnter(log[i].event) then NOT_RETURNED else 0
  }

  lemma EventsConcat(a: seq<Entry>, b: seq<Entry>)
    ensures Events(a + b) == Events(a) + Events(b)
    ensures WellReturned(a) && WellReturned(b) ==> WellReturned(a + b)
  {
  }

  lemma LoggedEvents(enter: u32)
    requires enter + 1 < RING && IsEnter(enter) && !IsEnter(enter + 1)
    ensures Events(Logged(enter, 0)) == Pair(enter) && WellReturned(Logged(enter, 0))
  {
  }

  lemma BracketLogClean(on: bool, b: Bracket, rets: Oracle)
    requires on ==> rets(OnBracket(b)) == 0
    ensures Events(BracketLog(on, b, rets)) == Bracketed(on, b) && WellReturned(BracketLog(on, b, rets))
  {
    LoggedEvents(BracketEnter(b));
  }

  lemma StepEnterCodes(role: Role, nbi: bool, step: Step)
    ensures IsEnter(StepEnter(role, nbi, step)) && !IsEnter(StepEnter(role, nbi, step) + 1)
  {
  }

  lemma {:induction false} BodyLogClean(role: Role, nbi: bool, steps: seq<Step>, rets: Oracle)
    requires forall i :: 0 <= i < |steps| ==> rets(OnStep(steps[i])) == 0
    ensures Events(BodyLog(role, nbi, steps, rets)) == Paired(role, nbi, steps)
    ensures WellReturned(BodyLog(role, nbi, steps, rets))
  {
    if steps != [] {
      BodyLogClean(role, nbi, steps[1..], rets);
      StepEnterCodes(role, nbi, steps[0]);
      LoggedEvents(StepEnter(role, nbi, steps[0]));
      EventsConcat(Logged(StepEnter(role, nbi, steps[0]), 0), BodyLog(role, nbi, steps[1..], rets));
    }
  }

  function CleanOpening(r: Run): seq<u32> {
    [KERNEL_ENTER] + Bracketed(Comm(r), CommAcquire) + Bracketed(Batch(r), BatchStart) + Bracketed(r.thread, ThreadWait)
  }

  function CleanClosing(r: Run): seq<u32> {
    Bracketed(r.thread, ThreadRecord) + Bracketed(Batch(r), BatchEnd) + Bracketed(Comm(r), CommRelease) + [KERNEL_EXIT]
  }

  lemma CleanHead(r: Run, rets: Oracle) returns (log: seq<Entry>)
    requires r.valid && Clean(r, rets)
    ensures log == [Entry(KERNEL_ENTER, NOT_RETURNED)] + BracketLog(Comm(r), CommAcquire, rets) +
                   BracketLog(Batch(r), BatchStart, rets) + BracketLog(r.thread, ThreadWait, rets)
    ensures Events(log) == CleanOpening(r) && WellReturned(log)
  {
    log := [Entry(KERNEL_ENTER, NOT_RETURNED)];
    BracketLogClean(Comm(r), CommAcquire, rets);
    EventsConcat(log, BracketLog(Comm(r), CommAcquire, rets));
    log := log + BracketLog(Comm(r), CommAcquire, rets);
    BracketLogClean(Batch(r), BatchStart, rets);
    EventsConcat(log, BracketLog(Batch(r), BatchStart, rets));
    log := log + BracketLog(Batch(r), BatchStart, rets);
    BracketLogClean(r.thread, ThreadWait, rets);
    EventsConcat(log, BracketLog(r.thread, ThreadWait, rets));
    log := log + BracketLog(r.thread, ThreadWait, rets);
  }

  lemma CleanTail(r: Run, rets: Oracle) returns (log: seq<Entry>)
    requires r.valid && Clean(r, rets)
    ensures log == BracketLog(r.thread, ThreadRecord, rets) + BracketLog(Batch(r), BatchEnd, rets) +
                   BracketLog(Comm(r), CommRelease, rets) + [Entry(KERNEL_EXIT, 0)]
    ensures Events(log) == CleanClosing(r) && WellReturned(log)
  {
    log := BracketLog(r.thread, ThreadRecord, rets);
    BracketLogClean(r.thread, ThreadRecord, rets);
    BracketLogClean(Batch(r), BatchEnd, rets);
    EventsConcat(log, BracketLog(Batch(r), BatchEnd, rets));
    log := log + BracketLog(Batch(r), BatchEnd, rets);
    BracketLogClean(Comm(r), CommRelease, rets);
    EventsConcat(log, BracketLog(Comm(r), CommRelease, rets));
    log := log + BracketLog(Comm(r), CommRelease, rets);
    EventsConcat(log, [Entry(KERNEL_EXIT, 0)]);
    log := log + [Entry(KERNEL_EXIT, 0)];
  }

  lemma Regroup<T>(a: seq<T>, b: seq<T>, c: seq<T>, d: seq<T>, body: seq<T>, e: seq<T>, f: seq<T>, g: seq<T>, h: seq<T>)
    ensures a + (b + (c + d + body + e + f + g)) + h == (a + b + c + d) + body + (e + f + g + h)
  {
    assert b + (c + d + body + e + f + g) == b + c + d + body + e + f + g;
  }

  lemma CleanStatuses(r: Run, rets: Oracle)
    requires r.valid && Clean(r, rets)
    ensures Acquired(r, rets) == 0 && Started(r, rets) == 0 && Released(r, rets) == 0
  {
  }

  lemma CleanLog(r: Run, rets: Oracle)
    requires r.valid && Clean(r, rets)
    ensures Events(KernelLog(r, rets)) ==
            CleanOpening(r) + Paired(RoleOf(r.desc), r.nbi, KernelSteps(r.desc)) + CleanClosing(r)
    ensures WellReturned(KernelLog(r, rets))
  {
    var head := CleanHead(r, rets);
    var tail := CleanTail(r, rets);
    var body := BodyLog(RoleOf(r.desc), r.nbi, KernelSteps(r.desc), rets);
    BodyLogClean(RoleOf(r.desc), r.nbi, KernelSteps(r.desc), rets);
    EventsConcat(head, body);
    EventsConcat(head + body, tail);
    CleanLogShape(r, rets, head, body, tail);
  }

  lemma CleanLogShape(r: Run, rets: Oracle, head: seq<Entry>, body: seq<Entry>, tail: seq<Entry>)
    requires r.valid && Clean(r, rets)
    requires head == [Entry(KERNEL_ENTER, NOT_RETURNED)] + BracketLog(Comm(r), CommAcquire, rets) +
                     BracketLog(Batch(r), BatchStart, rets) + BracketLog(r.thread, ThreadWait, rets)
    requires body == BodyLog(RoleOf(r.desc), r.nbi, KernelSteps(r.desc), rets)
    requires tail == BracketLog(r.thread, ThreadRecord, rets) + BracketLog(Batch(r), BatchEnd, rets) +
                     BracketLog(Comm(r), CommRelease, rets) + [Entry(KERNEL_EXIT, 0)]
    ensures KernelLog(r, rets) == head + body + tail
  {
    CleanStatuses(r, rets);
    Regroup([Entry(KERNEL_ENTER, NOT_RETURNED)], BracketLog(Comm(r), CommAcquire, rets),
            BracketLog(Batch(r), BatchStart, rets), BracketLog(r.thread, ThreadWait, rets), body,
            BracketLog(r.thread, ThreadRecord, rets), BracketLog(Batch(r), BatchEnd, rets),
            BracketLog(Comm(r), CommRelease, rets), [Entry(KERNEL_EXIT, 0)]);
  }

  // ---------------------------------------------------------------------------
  // The gate on kernel traces

  /** No run, clean or not, records more events than the rings hold. */
  lemma KernelLogFits(r: Run, rets: Oracle)
    ensures 2 <= |KernelLog(r, rets)| <= CAPACITY
  {
    BodyLogFits(RoleOf(r.desc), r.nbi, KernelSteps(r.desc), rets);
    assert |KernelSteps(r.desc)| <= 5;
  }

  lemma {:induction false} BodyLogFits(role: Role, nbi: bool, steps: seq<Step>, rets: Oracle)
    ensures |BodyLog(role, nbi, steps, rets)| <= 2 * |steps|
  {
    if steps != [] {
      BodyLogFits(role, nbi, steps[1..], rets);
    }
  }

  lemma KernelSlots(r: Run, rets: Oracle, ret: u32)
    ensures var w := KernelWords(r, rets, ret); var log := KernelLog(r, rets);
            w[4] == |log| % RING &&
            forall i :: 0 <= i < |log| && |log| - CAPACITY <= i ==> InSlot(w, log, i)
  {
    var log := KernelLog(r, rets);
    RecordedSlots(InitTrace(r.desc), log);
    var raw, w := RecordAll(InitTrace(r.desc), log), KernelWords(r, rets, ret);
    forall i | 0 <= i < |log| && |log| - CAPACITY <= i
      ensures InSlot(w, log, i)
    {
      assert InSlot(raw, log, i);
    }
  }

  /** What the host reads back from the trace words of a run. */
  lemma KernelDecoded(r: Run, rets: Oracle, ret: u32)
    ensures var w := KernelWords(r, rets, ret); var log := KernelLog(r, rets);
            w[4] == |log| && Decoded(w, HEADER) == Events(log) && Decoded(w, RETURNS) == Rets(log)
  {
    var log := KernelLog(r, rets);
    KernelLogFits(r, rets);
    KernelSlots(r, rets, ret);
    DecodeSlots(KernelWords(r, rets, ret), log, |log|);
    WholeSuffix(Events(log));
    WholeSuffix(Rets(log));
  }

  lemma WholeSuffix(s: seq<u32>)
    ensures Last(s, |s|) == s
  {
  }

  lemma KernelHeader(r: Run, rets: Oracle, ret: u32)
    ensures var w := KernelWords(r, rets, ret);
            && w[2] == KERNEL_EXIT && w[3] == 0
            && w[5] == r.desc.role && w[10] == r.desc.batchMode && w[11] == r.desc.recvPath && w[12] == r.desc.mode
  {
    var log, w0 := KernelLog(r, rets), InitTrace(r.desc);
    RecordedHeader(w0, log, 5);
    RecordedHeader(w0, log, 10);
    RecordedHeader(w0, log, 11);
    RecordedHeader(w0, log, 12);
    assert log[|log| - 1] == Entry(KERNEL_EXIT, 0);
  }

  lemma {:induction false} PairedNbi(role: Role, nbi: bool, steps: seq<Step>, event: u32)
    requires event == 37 || event == 38
    ensures event in Paired(role, nbi, steps) <==> nbi && WriteRemoteNotify in steps
    ensures WriteRemoteNotify !in steps ==> Paired(role, nbi, steps) == Paired(role, !nbi, steps)
  {
    if steps != [] {
      PairedNbi(role, nbi, steps[1..], event);
      assert steps == [steps[0]] + steps[1..];
    }
  }

  lemma BracketsWithoutNbi(r: Run, event: u32)
    requires event == 37 || event == 38
    ensures event !in CleanOpening(r) && event !in CleanClosing(r)
  {
  }

  lemma CleanEventsNbi(r: Run, rets: Oracle, event: u32)
    requires r.valid && Clean(r, rets) && (event == 37 || event == 38)
    ensures event in Events(KernelLog(r, rets)) <==> r.nbi && WriteRemoteNotify in KernelSteps(r.desc)
  {
    var steps, role := KernelSteps(r.desc), RoleOf(r.desc);
    CleanLog(r, rets);
    PairedNbi(role, r.nbi, steps, event);
    BracketsWithoutNbi(r, event);
    InThree(CleanOpening(r), Paired(role, r.nbi, steps), CleanClosing(r), event);
  }

  lemma SeenNbi(w: seq<u32>, seen: bool)
    requires IsTrace(w) && 0 < w[4] <= CAPACITY
    requires (37 in Decoded(w, HEADER)) == seen && (38 in Decoded(w, HEADER)) == seen
    ensures UsesNbi(w) == seen
  {
  }

  /** Trace words whose header is that of the descriptor make the gate expect the clean log. */
  lemma CleanIsExpected(r: Run, w: seq<u32>, role: Role, localRank: u32, peerRank: u32, bytes: nat,
                        p: Probe, roce: bool, host: bool)
    requires r.desc == FillDesc(role, localRank, peerRank, bytes, p, roce, host) && |w| == WORDS
    requires w[5] == r.desc.role && w[10] == r.desc.batchMode && w[11] == r.desc.recvPath && w[12] == r.desc.mode
    requires UsesNbi(w) == (r.nbi && WriteRemoteNotify in KernelSteps(r.desc))
    ensures CleanOpening(r) + Paired(role, r.nbi, KernelSteps(r.desc)) + CleanClosing(r) == Expected(w, r.thread)
  {
    var steps := KernelSteps(r.desc);
    KernelRunsPlan(role, localRank, peerRank, bytes, p, roce, host);
    ExpectedBodyIsPlan(w, role, p, roce, host, UsesNbi(w));
    PairedNbi(role, r.nbi, steps, 37);
    SameBrackets(r, w);
  }

  lemma SameBrackets(r: Run, w: seq<u32>)
    requires |w| == WORDS && w[10] == r.desc.batchMode && w[12] == r.desc.mode
    ensures CleanOpening(r) == Opening(w, r.thread) && CleanClosing(r) == Closing(w, r.thread)
  {
  }

  lemma CleanRunAccepted(r: Run, rets: Oracle, ret: u32,
                         role: Role, localRank: u32, peerRank: u32, bytes: nat, p: Probe, roce: bool, host: bool)
    requires r.desc == FillDesc(role, localRank, peerRank, bytes, p, roce, host)
    requires r.valid && Clean(r, rets)
    ensures Accepts(KernelWords(r, rets, ret), r.thread)
  {
    var w, log := KernelWords(r, rets, ret), KernelLog(r, rets);
    ResultIsClean(r, rets);
    KernelHeader(r, rets, ret);
    KernelDecoded(r, rets, ret);
    KernelLogFits(r, rets);
    CleanEventsNbi(r, rets, 37);
    CleanEventsNbi(r, rets, 38);
    SeenNbi(w, r.nbi && WriteRemoteNotify in KernelSteps(r.desc));
    CleanLog(r, rets);
    CleanIsExpected(r, w, role, localRank, peerRank, bytes, p, roce, host);
    ReturnedMatch(log);
  }

  /** The gate accepts the trace of a run if and only if the descriptor was valid, every
      foreign call the run made succeeded, and the host expects thread notifies exactly
      when the run used them. */
  lemma GateAcceptsCleanRuns(r: Run, rets: Oracle, ret: u32, thread: bool,
                             role: Role, localRank: u32, peerRank: u32, bytes: nat, p: Probe, roce: bool, host: bool)
    requires r.desc == FillDesc(role, localRank, peerRank, bytes, p, roce, host)
    ensures Accepts(KernelWords(r, rets, ret), thread) <==> r.valid && Clean(r, rets) && thread == r.thread
  {
    ResultIsClean(r, rets);
    if r.valid && Clean(r, rets) {
      CleanRunAccepted(r, rets, ret, role, localRank, peerRank, bytes, p, roce, host);
      AcceptedThreadEvents(KernelWords(r, rets, ret), r.thread);
    }
  }

  lemma ReturnedMatch(log: seq<Entry>)
    requires WellReturned(log)
    ensures ReturnsMatch(Events(log), Rets(log))
  {
  }
}
