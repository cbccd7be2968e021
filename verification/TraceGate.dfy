/** The device trace of an HCOMM payload copy and the host gate that decides whether a
    recorded trace is evidence of the planned run.

    A trace is 82 words: an 18-word header, a ring of 32 event codes and a ring of 32
    return codes. The recorder (device side) stores event n in slot n mod 32; the gate
    (host side) decodes the rings and compares them with the events it expects. */
module TraceGate {
  import opened Common
  import opened PayloadPlan

  type u32 = x: int | 0 <= x < 0x1_0000_0000

  const SCHEMA: u32 := 3
  const HEADER: nat := 18
  const CAPACITY: nat := 32
  const WORDS: nat := 82
  const RETURNS: nat := 50
  const RING: int := 0x1_0000_0000

  const FLAG_NOTIFY: u32 := 0x1000_0000
  const FLAG_WRITE: u32 := 0x2000_0000
  const FLAG_CHANNEL: u32 := 0x4000_0000
  const FLAG_SKIP: u32 := 0x8000_0000
  const MODE_MASK: u32 := 0x1_0000

  /** `(word & flag) != 0` for a one-bit flag. */
  predicate HasFlag(word: u32, flag: u32)
    requires flag > 0
  {
    (word / flag) % 2 == 1
  }

  /** `word | flag` for a one-bit flag. */
  function SetFlag(word: u32, flag: u32): u32
    requires flag > 0 && (HasFlag(word, flag) || word + flag < RING)
  {
    if HasFlag(word, flag) then word else word + flag
  }

  // ---------------------------------------------------------------------------
  // The recorder

  predicate IsTrace(w: seq<u32>) {
    |w| == WORDS && w[0] == SCHEMA && w[1] == WORDS
  }

  datatype Entry = Entry(event: u32, ret: u32)

  /** What the recorder makes of the words when one event is traced. */
  function Record(w: seq<u32>, e: Entry): (r: seq<u32>)
    requires IsTrace(w)
    ensures IsTrace(r)
  {
    var slot := w[4] % CAPACITY;
    w[HEADER + slot := e.event][RETURNS + slot := e.ret][2 := e.event][3 := e.ret][4 := (w[4] + 1) % RING]
  }

  function RecordAll(w: seq<u32>, log: seq<Entry>): (r: seq<u32>)
    requires IsTrace(w)
    ensures IsTrace(r)
  {
    if log == [] then w else Record(RecordAll(w, log[..|log| - 1]), log[|log| - 1])
  }

  /** The device recorder, in place on the trace buffer. */
  method TracePayloadEvent(words: array<u32>, event: u32, ret: u32)
    requires words.Length == WORDS && words[0] == SCHEMA && words[1] == WORDS
    modifies words
    ensures words[..] == Record(old(words[..]), Entry(event, ret))
  {
    var count := words[4];
    var slot := count % CAPACITY;
    words[HEADER + slot] := event;
    words[RETURNS + slot] := ret;
    words[2] := event;
    words[3] := ret;
    words[4] := (count + 1) % RING;
  }

  // ---------------------------------------------------------------------------
  // Decoding

  /** One ring of a trace, oldest entry first. */
  function Decoded(w: seq<u32>, base: nat): seq<u32>
    requires |w| == WORDS && (base == HEADER || base == RETURNS)
  {
    if w[1] != WORDS then []
    else if w[4] <= CAPACITY then w[base..base + w[4]]
    else
      var first := w[4] % CAPACITY;
      w[base + first..base + CAPACITY] + w[base..base + first]
  }

  /** The decoding loops of the event ring and of the return ring. */
  method DecodeRing(w: seq<u32>, base: nat) returns (out: seq<u32>)
    requires |w| == WORDS && (base == HEADER || base == RETURNS)
    ensures out == Decoded(w, base)
  {
    out := [];
    if w[1] != WORDS {
      return;
    }
    var count := w[4];
    if count == 0 {
      return;
    }
    if count <= CAPACITY {
      var i := 0;
      while i < count
        invariant 0 <= i <= count && out == w[base..base + i]
      {
        out := out + [w[base + i]];
        i := i + 1;
      }
      return;
    }
    var first := count % CAPACITY;
    var i := 0;
    while i < CAPACITY
      invariant 0 <= i <= CAPACITY
      invariant |out| == i && forall j :: 0 <= j < i ==> out[j] == w[base + (first + j) % CAPACITY]
    {
      out := out + [w[base + (first + i) % CAPACITY]];
      i := i + 1;
    }
    forall j | 0 <= j < CAPACITY
      ensures |Decoded(w, base)| == CAPACITY && out[j] == Decoded(w, base)[j]
    {
      DecodedAt(w, base, j);
    }
  }

  function Events(log: seq<Entry>): (r: seq<u32>)
    ensures |r| == |log| && forall i :: 0 <= i < |log| ==> r[i] == log[i].event
  {
    seq(|log|, i requires 0 <= i < |log| => log[i].event)
  }

  function Rets(log: seq<Entry>): (r: seq<u32>)
    ensures |r| == |log| && forall i :: 0 <= i < |log| ==> r[i] == log[i].ret
  {
    seq(|log|, i requires 0 <= i < |log| => log[i].ret)
  }

  function Last<T>(s: seq<T>, n: int): seq<T>
    requires 0 <= n <= |s|
  {
    s[|s| - n..]
  }

  /** Entry i of the log is still in its slot. */
  predicate InSlot(r: seq<u32>, log: seq<Entry>, i: nat)
    requires |r| == WORDS && i < |log|
  {
    r[HEADER + i % CAPACITY] == log[i].event && r[RETURNS + i % CAPACITY] == log[i].ret
  }

  lemma WrappedSlot(n: nat)
    ensures (n % RING) % CAPACITY == n % CAPACITY
    ensures (n % RING + 1) % RING == (n + 1) % RING
  {
  }

  lemma ModShift(x: nat, k: int)
    requires x + 32 * k >= 0
    ensures (x + 32 * k) % 32 == x % 32
  {
  }

  lemma DistinctSlots(i: nat, j: nat)
    requires i < j < i + CAPACITY
    ensures i % CAPACITY != j % CAPACITY
  {
  }

  lemma RecordSlot(r: seq<u32>, log: seq<Entry>)
    requires IsTrace(r) && log != []
    requires var n := |log| - 1;
             r[4] == n % RING && forall i :: 0 <= i < n && n - CAPACITY <= i ==> InSlot(r, log[..n], i)
    ensures var r' := Record(r, log[|log| - 1]);
            r'[4] == |log| % RING && forall i :: 0 <= i < |log| && |log| - CAPACITY <= i ==> InSlot(r', log, i)
  {
    var n := |log| - 1;
    var r' := Record(r, log[n]);
    WrappedSlot(n);
    forall i | 0 <= i < |log| && |log| - CAPACITY <= i
      ensures InSlot(r', log, i)
    {
      if i < n {
        assert InSlot(r, log[..n], i);
        DistinctSlots(i, n);
      }
    }
  }

  /** The recorder's invariant: the newest entries sit in their slots. */
  lemma {:induction false} RecordedSlots(w: seq<u32>, log: seq<Entry>)
    requires IsTrace(w) && w[4] == 0
    ensures RecordAll(w, log)[4] == |log| % RING
    ensures forall i :: 0 <= i < |log| && |log| - CAPACITY <= i ==> InSlot(RecordAll(w, log), log, i)
  {
    if log != [] {
      var n := |log| - 1;
      RecordedSlots(w, log[..n]);
      RecordSlot(RecordAll(w, log[..n]), log);
    }
  }

  /** The words the recorder leaves alone, and the last event it notes in the header. */
  lemma {:induction false} RecordedHeader(w: seq<u32>, log: seq<Entry>, i: nat)
    requires IsTrace(w) && 5 <= i < HEADER
    ensures RecordAll(w, log)[i] == w[i]
    ensures log != [] ==> RecordAll(w, log)[2] == log[|log| - 1].event && RecordAll(w, log)[3] == log[|log| - 1].ret
  {
    if log != [] {
      RecordedHeader(w, log[..|log| - 1], i);
    }
  }

  /** Where the decoder looks for the j-th newest-but entry. */
  lemma DecodedSlot(n: nat, c: nat, j: nat)
    requires c == n % RING && j < Min(c, CAPACITY)
    ensures var i := n - Min(c, CAPACITY) + j;
            i % CAPACITY == if c <= CAPACITY then j else (c % CAPACITY + j) % CAPACITY
  {
    var k := n / RING;
    assert n == RING * k + c;
    if c <= CAPACITY {
      assert n - c + j == j + CAPACITY * (0x800_0000 * k);
      ModShift(j, 0x800_0000 * k);
    } else {
      assert n - CAPACITY + j == (c % CAPACITY + j) + CAPACITY * (0x800_0000 * k + c / CAPACITY - 1);
      ModShift(c % CAPACITY + j, 0x800_0000 * k + c / CAPACITY - 1);
    }
  }

  /** A trace whose newest entries are in their slots decodes to them. */
  lemma DecodeSlots(r: seq<u32>, log: seq<Entry>, kept: nat)
    requires IsTrace(r) && r[4] == |log| % RING && kept == Min(r[4], CAPACITY)
    requires forall i :: 0 <= i < |log| && |log| - CAPACITY <= i ==> InSlot(r, log, i)
    ensures Decoded(r, HEADER) == Last(Events(log), kept)
    ensures Decoded(r, RETURNS) == Last(Rets(log), kept)
  {
    var events, rets, n := Decoded(r, HEADER), Decoded(r, RETURNS), |log|;
    if kept > 0 {
      DecodedAt(r, HEADER, 0);
      DecodedAt(r, RETURNS, 0);
    }
    forall j | 0 <= j < kept
      ensures events[j] == log[n - kept + j].event && rets[j] == log[n - kept + j].ret
    {
      DecodedSlot(n, r[4], j);
      assert InSlot(r, log, n - kept + j);
      DecodedAt(r, HEADER, j);
      DecodedAt(r, RETURNS, j);
    }
    assert events == Last(Events(log), kept);
    assert rets == Last(Rets(log), kept);
  }

  /** Decoding what was recorded gives the newest entries in order, for every number of
      events. The 32-bit count wraps, so after 2^32 events the trace looks young again. */
  lemma {:induction false} DecodeRecorded(w: seq<u32>, log: seq<Entry>)
    requires IsTrace(w) && w[4] == 0
    ensures var kept := Min(|log| % RING, CAPACITY);
            var r := RecordAll(w, log);
            Decoded(r, HEADER) == Last(Events(log), kept) && Decoded(r, RETURNS) == Last(Rets(log), kept)
  {
    RecordedSlots(w, log);
    DecodeSlots(RecordAll(w, log), log, Min(|log| % RING, CAPACITY));
  }

  lemma DecodedAt(w: seq<u32>, base: nat, j: nat)
    requires |w| == WORDS && w[1] == WORDS && (base == HEADER || base == RETURNS) && j < Min(w[4], CAPACITY)
    ensures |Decoded(w, base)| == Min(w[4], CAPACITY)
    ensures Decoded(w, base)[j] == w[base + if w[4] <= CAPACITY then j else (w[4] % CAPACITY + j) % CAPACITY]
  {
    if w[4] > CAPACITY {
      RotatedAt(w, base, w[4] % CAPACITY, j);
    }
  }

  lemma RotatedAt(w: seq<u32>, base: nat, first: nat, j: nat)
    requires base + CAPACITY <= |w| && first < CAPACITY && j < CAPACITY
    ensures |w[base + first..base + CAPACITY] + w[base..base + first]| == CAPACITY
    ensures (w[base + first..base + CAPACITY] + w[base..base + first])[j] == w[base + (first + j) % CAPACITY]
  {
    assert (first + j) % CAPACITY == if first + j < CAPACITY then first + j else first + j - CAPACITY;
  }

  /** So the gate sees the newest min(n, 32) events exactly when the count has not wrapped
      onto a value below the capacity. */
  lemma {:induction false} DecodeIsExact(w: seq<u32>, log: seq<Entry>)
    requires IsTrace(w) && w[4] == 0
    ensures Decoded(RecordAll(w, log), HEADER) == Last(Events(log), Min(|log|, CAPACITY)) <==>
            |log| < RING || |log| % RING >= CAPACITY
  {
    DecodeRecorded(w, log);
    KeptSuffix(Events(log));
  }

  lemma KeptSuffix<T>(s: seq<T>)
    ensures Last(s, Min(|s| % RING, CAPACITY)) == Last(s, Min(|s|, CAPACITY)) <==> |s| < RING || |s| % RING >= CAPACITY
  {
    SameSuffix(s, Min(|s| % RING, CAPACITY), Min(|s|, CAPACITY));
    KeptAll(|s|);
  }

  /** And it does fail: after exactly 2^32 events the ring decodes as if nothing had been
      recorded. One run of the kernel records at most 32 events, so a single run never gets
      there; see `TraceKernel.KernelLogFits`. */
  lemma WrappedTraceLooksEmpty(w: seq<u32>, log: seq<Entry>)
    requires IsTrace(w) && w[4] == 0 && |log| == RING
    ensures Decoded(RecordAll(w, log), HEADER) == [] != Last(Events(log), Min(|log|, CAPACITY))
  {
    DecodeRecorded(w, log);
    SuffixSize(Events(log), 0);
    SuffixSize(Events(log), CAPACITY);
  }

  lemma SuffixSize<T>(s: seq<T>, n: nat)
    requires n <= |s|
    ensures |Last(s, n)| == n
  {
  }

  lemma SameSuffix<T>(s: seq<T>, a: nat, b: nat)
    requires a <= |s| && b <= |s|
    ensures Last(s, a) == Last(s, b) <==> a == b
  {
    assert |Last(s, a)| == a && |Last(s, b)| == b;
  }

  lemma KeptAll(n: nat)
    ensures Min(n % RING, CAPACITY) == Min(n, CAPACITY) <==> n < RING || n % RING >= CAPACITY
  {
  }

  // ---------------------------------------------------------------------------
  // Event codes

  const KERNEL_ENTER: u32 := 1
  const KERNEL_EXIT: u32 := 34
  const NOT_RETURNED: u32 := 0xFFFF_FFFF

  datatype Bracket = CommAcquire | BatchStart | ThreadWait | ThreadRecord | BatchEnd | CommRelease

  function BracketEnter(b: Bracket): u32 {
    match b
    case CommAcquire => 2
    case BatchStart => 4
    case ThreadWait => 6
    case ThreadRecord => 24
    case BatchEnd => 26
    case CommRelease => 28
  }

  /** The enter event of a plan step; its done event is the next code. */
  function StepEnter(role: Role, nbi: bool, step: Step): u32 {
    match step
    case CopyInputToBuffer => 8
    case RecordReady => 10
    case WaitDone => 12
    case WaitReady => 14
    case ReadRemoteToBuffer => 16
    case ReadRemoteToOutput => 16
    case Fence => if role == Send then 32 else 18
    case CopyBufferToOutput => 20
    case RecordDone => 22
    case WriteRemote => 30
    case WriteRemoteNotify => if nbi then 37 else 35
  }

  predicate IsEnter(event: u32) {
    event in {1, 2, 4, 6, 8, 30, 32, 35, 37, 10, 12, 14, 16, 18, 20, 22, 24, 26, 28}
  }

  function Pair(enter: u32): seq<u32>
    requires enter + 1 < RING
  {
    [enter, enter + 1]
  }

  function Bracketed(on: bool, b: Bracket): seq<u32> {
    if on then Pair(BracketEnter(b)) else []
  }

  // ---------------------------------------------------------------------------
  // The gate

  predicate Contains(w: seq<u32>, event: u32)
    requires |w| == WORDS
  {
    w[1] == WORDS && 0 < w[4] <= CAPACITY && event in w[HEADER..HEADER + w[4]]
  }

  method PayloadTraceContainsEvent(w: seq<u32>, event: u32) returns (found: bool)
    requires |w| == WORDS
    ensures found == Contains(w, event)
  {
    if w[1] != WORDS {
      return false;
    }
    var count := w[4];
    if count == 0 || count > CAPACITY {
      return false;
    }
    var i := 0;
    while i < count
      invariant 0 <= i <= count && event !in w[HEADER..HEADER + i]
    {
      if w[HEADER + i] == event {
        assert w[HEADER..HEADER + count][i] == event;
        return true;
      }
      i := i + 1;
    }
    return false;
  }

  predicate UsesNbi(w: seq<u32>)
    requires |w| == WORDS
  {
    Contains(w, 37) || Contains(w, 38)
  }

  predicate SkipsComm(mode: u32) { HasFlag(mode, FLAG_SKIP) || HasFlag(mode, FLAG_CHANNEL) }
  predicate WritePath(mode: u32) { HasFlag(mode, FLAG_WRITE) }
  predicate WriteNotify(mode: u32) { HasFlag(mode, FLAG_NOTIFY) }
  predicate Drains(mode: u32) { mode % MODE_MASK == 1 }

  function If(on: bool, events: seq<u32>): seq<u32> { if on then events else [] }

  function ExpectedSend(write: bool, notify: bool, drain: bool, nbi: bool): seq<u32> {
    Pair(8) +
    If(write, Pair(if notify then (if nbi then 37 else 35) else 30)) +
    If(write && drain, Pair(32)) +
    If(!notify, Pair(10)) + Pair(12)
  }

  function ExpectedRecv(write: bool, drain: bool, direct: bool): seq<u32> {
    Pair(14) +
    If(!write, Pair(16)) +
    If(!write && drain, Pair(18)) +
    If(write || !direct, Pair(20)) + Pair(22)
  }

  /** The events the gate expects between the brackets. */
  function ExpectedBody(w: seq<u32>, nbi: bool): seq<u32>
    requires |w| == WORDS
  {
    if w[5] == 0 then ExpectedSend(WritePath(w[12]), WriteNotify(w[12]), Drains(w[12]), nbi)
    else if w[5] == 1 then ExpectedRecv(WritePath(w[12]), Drains(w[12]), w[11] == 1)
    else []
  }

  function Opening(w: seq<u32>, thread: bool): seq<u32>
    requires |w| == WORDS
  {
    [KERNEL_ENTER] + Bracketed(!SkipsComm(w[12]), CommAcquire) + Bracketed(w[10] != 1, BatchStart) +
    Bracketed(thread, ThreadWait)
  }

  function Closing(w: seq<u32>, thread: bool): seq<u32>
    requires |w| == WORDS
  {
    Bracketed(thread, ThreadRecord) + Bracketed(w[10] != 1, BatchEnd) +
    Bracketed(!SkipsComm(w[12]), CommRelease) + [KERNEL_EXIT]
  }

  function Expected(w: seq<u32>, thread: bool): seq<u32>
    requires |w| == WORDS
  {
    Opening(w, thread) + ExpectedBody(w, UsesNbi(w)) + Closing(w, thread)
  }

  lemma BodyFits(w: seq<u32>, nbi: bool)
    requires |w| == WORDS
    ensures |ExpectedBody(w, nbi)| <= 10
  {
  }

  /** Whatever the header says, the expected trace fits the ring, so it is never truncated. */
  lemma ExpectedFits(w: seq<u32>, thread: bool)
    requires |w| == WORDS
    ensures |Expected(w, thread)| <= CAPACITY
  {
    BodyFits(w, UsesNbi(w));
    assert |Opening(w, thread)| <= 7 && |Closing(w, thread)| <= 7;
  }

  /** The send branch of the expectation builder. */
  method ExpectSend(w: seq<u32>) returns (body: seq<u32>)
    requires |w| == WORDS
    ensures body == ExpectedSend(WritePath(w[12]), WriteNotify(w[12]), Drains(w[12]), UsesNbi(w))
  {
    body := Pair(8);
    var writeNotify := WriteNotify(w[12]);
    if WritePath(w[12]) {
      if writeNotify {
        var nbi := PayloadTraceContainsEvent(w, 37);
        if !nbi {
          nbi := PayloadTraceContainsEvent(w, 38);
        }
        body := body + Pair(if nbi then 37 else 35);
      } else {
        body := body + Pair(30);
      }
      if Drains(w[12]) {
        body := body + Pair(32);
      }
    }
    if !writeNotify {
      body := body + Pair(10);
    }
    body := body + Pair(12);
  }

  /** The receive branch of the expectation builder. */
  method ExpectRecv(w: seq<u32>) returns (body: seq<u32>)
    requires |w| == WORDS
    ensures body == ExpectedRecv(WritePath(w[12]), Drains(w[12]), w[11] == 1)
  {
    body := Pair(14);
    var writePath := WritePath(w[12]);
    if !writePath {
      body := body + Pair(16);
      if Drains(w[12]) {
        body := body + Pair(18);
      }
    }
    if writePath || w[11] != 1 {
      body := body + Pair(20);
    }
    body := body + Pair(22);
  }

  method ExpectOpening(w: seq<u32>, thread: bool) returns (expected: seq<u32>)
    requires |w| == WORDS
    ensures expected == Opening(w, thread)
  {
    expected := [KERNEL_ENTER];
    if !SkipsComm(w[12]) {
      expected := expected + Pair(BracketEnter(CommAcquire));
    }
    if w[10] != 1 {
      expected := expected + Pair(BracketEnter(BatchStart));
    }
    if thread {
      expected := expected + Pair(BracketEnter(ThreadWait));
    }
  }

  method ExpectClosing(w: seq<u32>, thread: bool) returns (expected: seq<u32>)
    requires |w| == WORDS
    ensures expected == Closing(w, thread)
  {
    expected := [];
    if thread {
      expected := expected + Pair(BracketEnter(ThreadRecord));
    }
    if w[10] != 1 {
      expected := expected + Pair(BracketEnter(BatchEnd));
    }
    if !SkipsComm(w[12]) {
      expected := expected + Pair(BracketEnter(CommRelease));
    }
    expected := expected + [KERNEL_EXIT];
  }

  method ExpectedPayloadTraceEvents(w: seq<u32>, thread: bool) returns (expected: seq<u32>)
    requires |w| == WORDS
    ensures expected == Expected(w, thread)
    ensures |expected| <= CAPACITY
  {
    var opening := ExpectOpening(w, thread);
    var body: seq<u32> := [];
    if w[5] == 0 {
      body := ExpectSend(w);
    } else if w[5] == 1 {
      body := ExpectRecv(w);
    }
    var closing := ExpectClosing(w, thread);
    expected := opening + body + closing;
    ExpectedFits(w, thread);
  }

  predicate ReturnsMatch(events: seq<u32>, rets: seq<u32>) {
    |events| == |rets| &&
    forall i :: 0 <= i < |events| ==> rets[i] == if IsEnter(events[i]) then NOT_RETURNED else 0
  }

  /** The gate itself. */
  predicate Accepts(w: seq<u32>, thread: bool) {
    && IsTrace(w) && w[2] == KERNEL_EXIT && w[3] == 0 && w[15] == 0 && w[16] == 0 && w[17] == 0
    && w[4] <= CAPACITY
    && Decoded(w, HEADER) == Expected(w, thread)
    && Decoded(w, HEADER) != []
    && ReturnsMatch(Decoded(w, HEADER), Decoded(w, RETURNS))
  }

  // ---------------------------------------------------------------------------
  // From options to descriptor and to plan

  /** The payload part of the normalized channel options. */
  datatype Probe = Probe(
    disableBatch: bool,
    recvDirect: bool,
    forceFence: bool,
    writePath: bool,
    writeNotify: bool,
    binding: CommBinding)

  datatype Desc = Desc(
    role: u32, localRank: u32, peerRank: u32, bytes: nat,
    batchMode: u32, recvPath: u32, mode: u32, readyIdx: u32, doneIdx: u32)

  predicate NeedsFence(p: Probe, roce: bool, nbi: bool) {
    p.forceFence || (p.writeNotify && nbi) || roce
  }

  function ModeWord(p: Probe, roce: bool, nbi: bool): u32 {
    var m0: u32 := if NeedsFence(p, roce, nbi) then 1 else 0;
    var m1 := match p.binding
              case CommName => m0
              case DiagnosticSkip => SetFlag(m0, FLAG_SKIP)
              case ChannelHandle => SetFlag(SetFlag(m0, FLAG_SKIP), FLAG_CHANNEL);
    var m2 := if p.writePath then SetFlag(m1, FLAG_WRITE) else m1;
    if p.writeNotify then SetFlag(SetFlag(m2, FLAG_WRITE), FLAG_NOTIFY) else m2
  }

  /** The descriptor the host fills for the device kernel. */
  function FillDesc(role: Role, localRank: u32, peerRank: u32, bytes: nat, p: Probe, roce: bool, nbi: bool): Desc {
    Desc(if role == Send then 0 else 1, localRank, peerRank, bytes,
         if p.disableBatch then 1 else 0,
         if p.recvDirect && !p.writePath then 1 else 0,
         ModeWord(p, roce, nbi), 0, 1)
  }

  /** The plan options the host derives from the same options. */
  function PlanOptions(p: Probe, roce: bool, nbi: bool): Options {
    Options(
      if p.writeNotify then WriteWithNotify else if p.writePath then Write else Read,
      if p.recvDirect && !p.writePath && !p.writeNotify then DirectOutput else LocalBuffer,
      p.binding,
      if NeedsFence(p, roce, nbi) then ChannelFence else OrderedNotify,
      !p.disableBatch)
  }

  /** What the flag tests of the gate and of the kernel read in the mode word. */
  lemma ModeWordReads(p: Probe, roce: bool, nbi: bool)
    ensures var m := ModeWord(p, roce, nbi); var o := PlanOptions(p, roce, nbi);
            && WritePath(m) == (o.mode != Read)
            && WriteNotify(m) == (o.mode == WriteWithNotify)
            && Drains(m) == (o.completion == ChannelFence)
            && SkipsComm(m) == (o.binding != CommName)
  {
    PathReads(p, roce, nbi);
  }

  lemma PathReads(p: Probe, roce: bool, nbi: bool)
    ensures var m, o := ModeWord(p, roce, nbi), PlanOptions(p, roce, nbi);
            WritePath(m) == (o.mode != Read) && WriteNotify(m) == (o.mode == WriteWithNotify)
  {
  }

  predicate HeaderMatches(d: Desc, w: seq<u32>) {
    && IsTrace(w) && w[5] == d.role && w[6] == d.localRank && w[7] == d.peerRank
    && w[8] + RING * w[9] == d.bytes
    && w[10] == d.batchMode && w[11] == d.recvPath && w[12] == d.mode
    && w[13] == d.readyIdx && w[14] == d.doneIdx
  }

  // ---------------------------------------------------------------------------
  // Reading a plan off a trace

  function Paired(role: Role, nbi: bool, steps: seq<Step>): seq<u32> {
    if steps == [] then [] else Pair(StepEnter(role, nbi, steps[0])) + Paired(role, nbi, steps[1..])
  }

  predicate IsBracket(event: u32) {
    event in {1, 34, 2, 3, 4, 5, 6, 7, 24, 25, 26, 27, 28, 29}
  }

  /** The plan step that an enter event announces; the read event does not tell its target. */
  function StepOfEnter(event: u32, direct: bool): Option<Step> {
    match event
    case 8 => Some(CopyInputToBuffer)
    case 10 => Some(RecordReady)
    case 12 => Some(WaitDone)
    case 14 => Some(WaitReady)
    case 16 => Some(if direct then ReadRemoteToOutput else ReadRemoteToBuffer)
    case 18 => Some(Fence)
    case 20 => Some(CopyBufferToOutput)
    case 22 => Some(RecordDone)
    case 30 => Some(WriteRemote)
    case 32 => Some(Fence)
    case 35 => Some(WriteRemoteNotify)
    case 37 => Some(WriteRemoteNotify)
    case _ => None
  }

  /** Erases the bracket events and joins each enter event with the done event that must
      follow it; None if the events are no such sequence. */
  function StepsOf(events: seq<u32>, direct: bool): Option<seq<Step>> {
    if events == [] then Some([])
    else if IsBracket(events[0]) then StepsOf(events[1..], direct)
    else if StepOfEnter(events[0], direct) == None || |events| < 2 || events[1] != events[0] + 1 then None
    else
      match StepsOf(events[2..], direct)
      case None => None
      case Some(rest) => Some([StepOfEnter(events[0], direct).value] + rest)
  }

  lemma {:induction false} StepsOfBrackets(brackets: seq<u32>, events: seq<u32>, direct: bool)
    requires forall i :: 0 <= i < |brackets| ==> IsBracket(brackets[i])
    ensures StepsOf(brackets + events, direct) == StepsOf(events, direct)
  {
    if brackets == [] {
      assert brackets + events == events;
    } else {
      StepsOfBrackets(brackets[1..], events, direct);
      assert (brackets + events)[1..] == brackets[1..] + events;
    }
  }

  predicate Readable(steps: seq<Step>, direct: bool) {
    forall i :: 0 <= i < |steps| ==> steps[i] != if direct then ReadRemoteToBuffer else ReadRemoteToOutput
  }

  lemma EnterReadsBack(role: Role, nbi: bool, step: Step, direct: bool)
    requires step != if direct then ReadRemoteToBuffer else ReadRemoteToOutput
    ensures var event := StepEnter(role, nbi, step);
            !IsBracket(event) && StepOfEnter(event, direct) == Some(step)
  {
  }

  lemma {:induction false} StepsOfPaired(role: Role, nbi: bool, steps: seq<Step>, events: seq<u32>, direct: bool)
    requires Readable(steps, direct)
    requires StepsOf(events, direct) == Some([])
    ensures StepsOf(Paired(role, nbi, steps) + events, direct) == Some(steps)
  {
    var all := Paired(role, nbi, steps) + events;
    if steps == [] {
      assert all == events;
    } else {
      StepsOfPaired(role, nbi, steps[1..], events, direct);
      EnterReadsBack(role, nbi, steps[0], direct);
      assert all[2..] == Paired(role, nbi, steps[1..]) + events;
      assert all[0] == StepEnter(role, nbi, steps[0]) && all[1] == all[0] + 1;
      assert [steps[0]] + steps[1..] == steps;
    }
  }

  lemma Joined<T>(a: seq<T>, b: seq<T>, c: seq<T>)
    ensures a + (b + c) == a + b + c
  {
  }

  lemma {:induction false} PairedConcat(role: Role, nbi: bool, a: seq<Step>, b: seq<Step>)
    ensures Paired(role, nbi, a + b) == Paired(role, nbi, a) + Paired(role, nbi, b)
  {
    if a == [] {
      assert a + b == b;
    } else {
      PairedConcat(role, nbi, a[1..], b);
      assert (a + b)[0] == a[0] && (a + b)[1..] == a[1..] + b;
      Joined(Pair(StepEnter(role, nbi, a[0])), Paired(role, nbi, a[1..]), Paired(role, nbi, b));
    }
  }

  lemma PairedTwo(role: Role, nbi: bool, x: Step, y: Step)
    ensures Paired(role, nbi, [x]) == Pair(StepEnter(role, nbi, x))
    ensures Paired(role, nbi, [x, y]) == Pair(StepEnter(role, nbi, x)) + Pair(StepEnter(role, nbi, y))
  {
    assert [x, y] == [x] + [y];
    PairedConcat(role, nbi, [x], [y]);
  }

  lemma PairedThree(role: Role, nbi: bool, a: seq<Step>, b: seq<Step>, c: seq<Step>)
    ensures Paired(role, nbi, a + b + c) == Paired(role, nbi, a) + Paired(role, nbi, b) + Paired(role, nbi, c)
  {
    PairedConcat(role, nbi, a + b, c);
    PairedConcat(role, nbi, a, b);
  }

  lemma ExpectedSendIsPlan(o: Options, nbi: bool)
    ensures ExpectedSend(o.mode != Read, o.mode == WriteWithNotify, o.completion == ChannelFence, nbi) ==
            Paired(Send, nbi, SendSteps(o))
  {
    match o.mode
    case Read =>
      assert SendSteps(o) == [CopyInputToBuffer, RecordReady] + [WaitDone];
      PairedTwo(Send, nbi, CopyInputToBuffer, RecordReady);
      PairedTwo(Send, nbi, WaitDone, WaitDone);
      PairedConcat(Send, nbi, [CopyInputToBuffer, RecordReady], [WaitDone]);
    case Write => ExpectedWriteIsPlan(o, nbi);
    case WriteWithNotify => ExpectedNotifyIsPlan(o, nbi);
  }

  lemma ExpectedWriteIsPlan(o: Options, nbi: bool)
    requires o.mode == Write
    ensures ExpectedSend(true, false, o.completion == ChannelFence, nbi) == Paired(Send, nbi, SendSteps(o))
  {
    PairedTwo(Send, nbi, Fence, Fence);
    PairedTwo(Send, nbi, CopyInputToBuffer, WriteRemote);
    PairedTwo(Send, nbi, RecordReady, WaitDone);
    PairedThree(Send, nbi, [CopyInputToBuffer, WriteRemote], Fences(o), [RecordReady, WaitDone]);
  }

  lemma ExpectedNotifyIsPlan(o: Options, nbi: bool)
    requires o.mode == WriteWithNotify
    ensures ExpectedSend(true, true, o.completion == ChannelFence, nbi) == Paired(Send, nbi, SendSteps(o))
  {
    PairedTwo(Send, nbi, Fence, Fence);
    PairedTwo(Send, nbi, CopyInputToBuffer, WriteRemoteNotify);
    PairedTwo(Send, nbi, WaitDone, WaitDone);
    PairedThree(Send, nbi, [CopyInputToBuffer, WriteRemoteNotify], Fences(o), [WaitDone]);
  }

  lemma ExpectedRecvIsPlan(o: Options, nbi: bool, direct: bool)
    requires o.mode == Read ==> direct == (o.recvPath == DirectOutput)
    ensures ExpectedRecv(o.mode != Read, o.completion == ChannelFence, direct) == Paired(Recv, nbi, RecvSteps(o))
  {
    if o.mode != Read {
      ExpectedWrittenIsPlan(o, nbi, direct);
    } else if o.recvPath == DirectOutput {
      ExpectedDirectIsPlan(o, nbi);
    } else {
      ExpectedBufferedIsPlan(o, nbi);
    }
  }

  lemma ExpectedWrittenIsPlan(o: Options, nbi: bool, direct: bool)
    requires o.mode != Read
    ensures ExpectedRecv(true, o.completion == ChannelFence, direct) == Paired(Recv, nbi, RecvSteps(o))
  {
    PairedTwo(Recv, nbi, WaitReady, WaitReady);
    PairedTwo(Recv, nbi, CopyBufferToOutput, RecordDone);
    assert RecvSteps(o) == [WaitReady] + [CopyBufferToOutput, RecordDone];
    PairedConcat(Recv, nbi, [WaitReady], [CopyBufferToOutput, RecordDone]);
  }

  lemma ExpectedDirectIsPlan(o: Options, nbi: bool)
    requires o.mode == Read && o.recvPath == DirectOutput
    ensures ExpectedRecv(false, o.completion == ChannelFence, true) == Paired(Recv, nbi, RecvSteps(o))
  {
    PairedTwo(Recv, nbi, Fence, Fence);
    PairedTwo(Recv, nbi, RecordDone, RecordDone);
    PairedTwo(Recv, nbi, WaitReady, ReadRemoteToOutput);
    PairedThree(Recv, nbi, [WaitReady, ReadRemoteToOutput], Fences(o), [RecordDone]);
  }

  lemma ExpectedBufferedIsPlan(o: Options, nbi: bool)
    requires o.mode == Read && o.recvPath != DirectOutput
    ensures ExpectedRecv(false, o.completion == ChannelFence, false) == Paired(Recv, nbi, RecvSteps(o))
  {
    PairedTwo(Recv, nbi, Fence, Fence);
    PairedTwo(Recv, nbi, CopyBufferToOutput, RecordDone);
    PairedTwo(Recv, nbi, WaitReady, ReadRemoteToBuffer);
    PairedThree(Recv, nbi, [WaitReady, ReadRemoteToBuffer], Fences(o), [CopyBufferToOutput, RecordDone]);
  }

  /** The body the gate expects under a matching header is the plan, step by step. */
  lemma ExpectedBodyIsPlan(w: seq<u32>, role: Role, p: Probe, roce: bool, host: bool, nbi: bool)
    requires |w| == WORDS && w[5] == (if role == Send then 0 else 1) && w[12] == ModeWord(p, roce, host)
    requires w[11] == if p.recvDirect && !p.writePath then 1 else 0
    ensures ExpectedBody(w, nbi) == Paired(role, nbi, Steps(role, PlanOptions(p, roce, host)))
  {
    ModeWordReads(p, roce, host);
    var o := PlanOptions(p, roce, host);
    if role == Send {
      ExpectedSendIsPlan(o, nbi);
    } else {
      ExpectedRecvIsPlan(o, nbi, w[11] == 1);
    }
  }

  lemma {:induction false} StepsOfFramed(
    opening: seq<u32>, closing: seq<u32>, role: Role, nbi: bool, steps: seq<Step>, direct: bool)
    requires forall i :: 0 <= i < |opening| ==> IsBracket(opening[i])
    requires forall i :: 0 <= i < |closing| ==> IsBracket(closing[i])
    requires Readable(steps, direct)
    ensures StepsOf(opening + Paired(role, nbi, steps) + closing, direct) == Some(steps)
  {
    StepsOfBrackets(closing, [], direct);
    assert closing + [] == closing;
    StepsOfPaired(role, nbi, steps, closing, direct);
    StepsOfBrackets(opening, Paired(role, nbi, steps) + closing, direct);
    assert opening + Paired(role, nbi, steps) + closing == opening + (Paired(role, nbi, steps) + closing);
  }

  lemma PlanReadable(role: Role, o: Options, direct: bool)
    requires o.mode == Read ==> direct == (o.recvPath == DirectOutput)
    ensures Readable(Steps(role, o), direct)
  {
  }

  lemma BracketsOnly(w: seq<u32>, thread: bool)
    requires |w| == WORDS
    ensures forall i :: 0 <= i < |Opening(w, thread)| ==> IsBracket(Opening(w, thread)[i])
    ensures forall i :: 0 <= i < |Closing(w, thread)| ==> IsBracket(Closing(w, thread)[i])
  {
  }

  /** Soundness of the gate: any accepted trace whose header matches the descriptor is,
      once brackets are erased and enter/done pairs are joined, exactly the step list the
      plan builder returns for the same options. */
  lemma AcceptedTraceIsPlan(w: seq<u32>, thread: bool, role: Role, localRank: u32, peerRank: u32, bytes: nat,
                            p: Probe, roce: bool, host: bool)
    requires Accepts(w, thread)
    requires HeaderMatches(FillDesc(role, localRank, peerRank, bytes, p, roce, host), w)
    ensures StepsOf(Decoded(w, HEADER), w[11] == 1) == Some(Steps(role, PlanOptions(p, roce, host)))
  {
    var o, nbi, direct := PlanOptions(p, roce, host), UsesNbi(w), w[11] == 1;
    ExpectedBodyIsPlan(w, role, p, roce, host, nbi);
    BracketsOnly(w, thread);
    PlanReadable(role, o, direct);
    StepsOfFramed(Opening(w, thread), Closing(w, thread), role, nbi, Steps(role, o), direct);
  }

  /** The first return code the report calls an error, if any. */
  predicate FirstErrorIsNone(events: seq<u32>, rets: seq<u32>) {
    events != [] && |events| == |rets| &&
    forall i :: 0 <= i < |rets| ==> rets[i] == 0 || rets[i] == NOT_RETURNED
  }

  function Count(events: seq<u32>, event: u32): nat { multiset(events)[event] }

  datatype Counts = Counts(
    localCopy: nat, read: nat, write: nat, writeNotify: nat, notifyRecord: nat, notifyWait: nat,
    channelFence: nat, commAcquire: nat, commRelease: nat, batch: nat, threadNotify: nat)

  function CountPrimitives(e: seq<u32>): Counts {
    Counts(Count(e, 9) + Count(e, 21), Count(e, 17), Count(e, 31), Count(e, 36) + Count(e, 38),
           Count(e, 11) + Count(e, 23), Count(e, 13) + Count(e, 15), Count(e, 33) + Count(e, 19),
           Count(e, 3), Count(e, 29), Count(e, 5) + Count(e, 27), Count(e, 7) + Count(e, 25))
  }

  /** The report guesses from the trace itself whether thread notifies were part of the run. */
  predicate SeesThreadNotify(w: seq<u32>)
    requires |w| == WORDS
  {
    CountPrimitives(Decoded(w, HEADER)).threadNotify != 0 || Contains(w, 6) || Contains(w, 24)
  }

  lemma InThree(a: seq<u32>, b: seq<u32>, c: seq<u32>, event: u32)
    ensures event in a + b + c <==> event in a || event in b || event in c
  {
  }

  predicate ThreadEvent(event: u32) { event == 6 || event == 7 || event == 24 || event == 25 }

  lemma BodyThreadEvents(w: seq<u32>, nbi: bool, event: u32)
    requires |w| == WORDS && ThreadEvent(event)
    ensures event !in ExpectedBody(w, nbi)
  {
    if w[5] == 0 {
      SendThreadEvents(WritePath(w[12]), WriteNotify(w[12]), Drains(w[12]), nbi, event);
    } else if w[5] == 1 {
      RecvThreadEvents(WritePath(w[12]), Drains(w[12]), w[11] == 1, event);
    }
  }

  lemma SendThreadEvents(write: bool, notify: bool, drain: bool, nbi: bool, event: u32)
    requires ThreadEvent(event)
    ensures event !in ExpectedSend(write, notify, drain, nbi)
  {
    var post := If(write, Pair(if notify then (if nbi then 37 else 35) else 30));
    var fence, ready := If(write && drain, Pair(32)), If(!notify, Pair(10));
    assert event !in post && event !in fence && event !in ready;
    InThree(Pair(8), post, fence, event);
    InThree(Pair(8) + post + fence, ready, Pair(12), event);
  }

  lemma RecvThreadEvents(write: bool, drain: bool, direct: bool, event: u32)
    requires ThreadEvent(event)
    ensures event !in ExpectedRecv(write, drain, direct)
  {
    var read, fence, copy := If(!write, Pair(16)), If(!write && drain, Pair(18)), If(write || !direct, Pair(20));
    assert event !in read && event !in fence && event !in copy;
    InThree(Pair(14), read, fence, event);
    InThree(Pair(14) + read + fence, copy, Pair(22), event);
  }

  lemma OpeningThreadEvents(w: seq<u32>, thread: bool, event: u32)
    requires |w| == WORDS && ThreadEvent(event)
    ensures event in Opening(w, thread) <==> thread && event < 8
  {
    var rest := [KERNEL_ENTER] + Bracketed(!SkipsComm(w[12]), CommAcquire) + Bracketed(w[10] != 1, BatchStart);
    assert event !in rest;
    InThree(rest, Bracketed(thread, ThreadWait), [], event);
    assert Opening(w, thread) == rest + Bracketed(thread, ThreadWait) + [];
  }

  lemma ClosingThreadEvents(w: seq<u32>, thread: bool, event: u32)
    requires |w| == WORDS && ThreadEvent(event)
    ensures event in Closing(w, thread) <==> thread && event >= 24
  {
    var rest := Bracketed(w[10] != 1, BatchEnd) + Bracketed(!SkipsComm(w[12]), CommRelease) + [KERNEL_EXIT];
    assert event !in rest;
    InThree(Bracketed(thread, ThreadRecord), rest, [], event);
    assert Closing(w, thread) == Bracketed(thread, ThreadRecord) + rest + [];
  }

  lemma ExpectedThreadEvents(w: seq<u32>, thread: bool, event: u32)
    requires |w| == WORDS && ThreadEvent(event)
    ensures event in Expected(w, thread) <==> thread
  {
    BodyThreadEvents(w, UsesNbi(w), event);
    OpeningThreadEvents(w, thread, event);
    ClosingThreadEvents(w, thread, event);
    InThree(Opening(w, thread), ExpectedBody(w, UsesNbi(w)), Closing(w, thread), event);
  }

  lemma SeenThreadEvents(w: seq<u32>, events: seq<u32>, thread: bool)
    requires IsTrace(w) && 0 < w[4] <= CAPACITY && events == Decoded(w, HEADER)
    requires forall event :: ThreadEvent(event) ==> (event in events <==> thread)
    ensures SeesThreadNotify(w) == thread
  {
    assert events == w[HEADER..HEADER + w[4]];
    assert Contains(w, 6) == (6 in events) && Contains(w, 24) == (24 in events);
    assert (Count(events, 7) != 0) == (7 in events) && (Count(events, 25) != 0) == (25 in events);
    assert ThreadEvent(6) && ThreadEvent(7) && ThreadEvent(24) && ThreadEvent(25);
  }

  lemma AcceptedThreadEvents(w: seq<u32>, thread: bool)
    requires Accepts(w, thread)
    ensures SeesThreadNotify(w) == thread && !Accepts(w, !thread)
  {
    var events := Decoded(w, HEADER);
    forall event | ThreadEvent(event)
      ensures event in events <==> thread
    {
      ExpectedThreadEvents(w, thread, event);
    }
    SeenThreadEvents(w, events, thread);
    ExpectedThreadEvents(w, !thread, 7);
    assert 7 in events <==> thread;
  }

  /** What the report prints about an accepted trace: the order, the return order and the
      primitive counts pass, and there is no first error. Whether thread notifies belong to
      the run is no matter of choice. */
  lemma AcceptedTraceReports(w: seq<u32>, thread: bool)
    requires Accepts(w, thread)
    ensures FirstErrorIsNone(Decoded(w, HEADER), Decoded(w, RETURNS))
    ensures SeesThreadNotify(w) == thread
    ensures CountPrimitives(Decoded(w, HEADER)) == CountPrimitives(Expected(w, SeesThreadNotify(w)))
    ensures !Accepts(w, !thread)
  {
    AcceptedThreadEvents(w, thread);
    NoFirstError(Decoded(w, HEADER), Decoded(w, RETURNS));
  }

  lemma NoFirstError(events: seq<u32>, rets: seq<u32>)
    requires events != [] && ReturnsMatch(events, rets)
    ensures FirstErrorIsNone(events, rets)
  {
  }
}
