/** The engine as the client library runs it: an object whose methods update tables, counters
    and reference counts step by step, and check every request before they do. Each call keeps
    the engine invariant and takes exactly the transition of the state machine, so everything
    proved about runs holds of the object. */
module SimLibrary {
  import opened Common
  import opened SimState
  import opened SimLedger
  import opened SimCollective
  import opened SimCollectiveInv
  import opened SimPair
  import opened SimEngine
  import opened SimAdmission
  import opened SimDelivery
  import opened SimReduction
  import opened SimEngineInv
  import opened SimRuns
  import opened SimSafety
  import opened SimFifo
  import opened SimDirect
  import opened SimDrain

  // ---------------------------------------------------------------------------
  // Reductions, element by element and rank by rank

  /** Every element is accumulated over the ranks in order and written to its place. */
  method ReduceTyped(f: Reducer, p: CollParams, payloads: seq<Bytes>) returns (output: Bytes)
    requires |payloads| > 0
    ensures output == Reduced(f, p, payloads, p.count)
    ensures Sized(p, payloads) ==>
              forall i, acc :: 0 <= i < p.count && Accumulates(f, p, payloads, i, acc) ==>
                IsAt(output, i * Width(p.dtype), acc[|acc| - 1])
  {
    var w := Width(p.dtype);
    output := [];
    var i := 0;
    while i < p.count
      invariant 0 <= i <= p.count && output == Reduced(f, p, payloads, i)
    {
      var acc := Fit(Element(payloads[0], i, w), w);
      var rank := 1;
      while rank < |payloads|
        invariant 1 <= rank <= |payloads| && acc == FoldElement(f, p, payloads, i, rank)
      {
        acc := Fit(f(p.dtype, p.op, acc, Element(payloads[rank], i, w)), w);
        rank := rank + 1;
      }
      output := output + acc;
      i := i + 1;
    }
    if Sized(p, payloads) {
      forall i, acc | 0 <= i < p.count && Accumulates(f, p, payloads, i, acc)
        ensures IsAt(output, i * Width(p.dtype), acc[|acc| - 1])
      {
        ReducedElement(f, p, payloads, p.count, i);
        ChainIsFold(f, p, payloads, i, acc, |payloads|);
        Places(i, p.count, Width(p.dtype));
      }
    }
  }

  predicate IsAt(data: Bytes, at: int, part: Bytes) {
    0 <= at <= at + |part| <= |data| && data[at..at + |part|] == part
  }

  method Gather(payloads: seq<Bytes>) returns (output: Bytes)
    ensures output == Gathered(payloads, |payloads|)
  {
    output := [];
    for rank := 0 to |payloads|
      invariant output == Gathered(payloads, rank)
    {
      output := output + payloads[rank];
    }
  }

  /** What the last arrival sends to every rank; None for a type that cannot be reduced. */
  method ComputeOutput(f: Reducer, kind: CollKind, p: CollParams, payloads: seq<Bytes>) returns (output: Option<Bytes>)
    requires |payloads| > 0
    ensures output == Output(f, kind, p, payloads)
  {
    if kind == AllGather {
      var all := Gather(payloads);
      output := Some(all);
    } else if |payloads| == 1 {
      output := Some(payloads[0]);
    } else if Reducible(p.dtype) {
      var all := ReduceTyped(f, p, payloads);
      output := Some(all);
    } else {
      output := None;
    }
  }

  // ---------------------------------------------------------------------------
  // Settling an entry, seen as a change of memory

  function FailMem(m: Mem, slots: seq<Option<CollSlot>>, n: nat, status: Status): Mem
    requires n <= |slots|
  {
    if n == 0 then m
    else
      var m1 := FailMem(m, slots, n - 1, status);
      match slots[n - 1]
      case None => m1
      case Some(slot) => FinishIo(ReleaseBuffer(m1, slot.dst), slot.io, status, 0, 0)
  }

  function CompleteMem(m: Mem, slots: seq<Option<CollSlot>>, n: nat, out: Bytes): Mem
    requires n <= |slots|
  {
    if n == 0 then m
    else
      var m1 := CompleteMem(m, slots, n - 1, out);
      match slots[n - 1]
      case None => m1
      case Some(slot) =>
        FinishIo(ReleaseBuffer(Store(m1, slot.dst, slot.offset, out), slot.dst), slot.io, Ok, |out|, Checksum32(out))
  }

  /** The entry keeps its place while slots below `n` are emptied. */
  predicate Emptied(c: Core, b: Core, k: CollKey, n: nat) {
    && EmptiedTo(c, b, k, n) && OtherWork(c.work, b.work) && OtherColls(c.work, b.work, k)
  }

  lemma EmptiedErases(c: Core, b: Core, k: CollKey, n: nat)
    requires Emptied(c, b, k, n)
    ensures EraseColl(b, k).work == EraseColl(c, k).work
  {
  }

  lemma FailSlotMem(c: Core, b: Core, k: CollKey, n: nat, status: Status)
    requires Emptied(c, b, k, n) && n < |c.work.colls[k].slots|
    requires b.mem == FailMem(c.mem, c.work.colls[k].slots, n, status)
    ensures var b' := FailSlot(b, k, n, status);
            Emptied(c, b', k, n + 1) && b'.mem == FailMem(c.mem, c.work.colls[k].slots, n + 1, status)
  {
    FailSlotEmpties(c, b, k, n, status);
    assert b.work.colls[k].slots[n] == c.work.colls[k].slots[n];
    if Filled(b.work, k, n) {
      VacateChanges(b.work, k, n);
    }
  }

  lemma CompleteSlotMem(c: Core, b: Core, k: CollKey, n: nat, out: Bytes)
    requires Emptied(c, b, k, n) && n < |c.work.colls[k].slots|
    requires b.mem == CompleteMem(c.mem, c.work.colls[k].slots, n, out)
    ensures var b' := CompleteSlot(b, k, n, out);
            Emptied(c, b', k, n + 1) && b'.mem == CompleteMem(c.mem, c.work.colls[k].slots, n + 1, out)
  {
    CompleteSlotEmpties(c, b, k, n, out);
    assert b.work.colls[k].slots[n] == c.work.colls[k].slots[n];
    if Filled(b.work, k, n) {
      VacateChanges(b.work, k, n);
    }
  }

  lemma {:induction false} FailRanksMem(c: Core, k: CollKey, n: nat, status: Status)
    requires k in c.work.colls && n <= |c.work.colls[k].slots|
    ensures Emptied(c, FailRanks(c, k, n, status), k, n)
    ensures FailRanks(c, k, n, status).mem == FailMem(c.mem, c.work.colls[k].slots, n, status)
  {
    if n > 0 {
      FailRanksMem(c, k, n - 1, status);
      FailSlotMem(c, FailRanks(c, k, n - 1, status), k, n - 1, status);
    }
  }

  lemma {:induction false} CompleteRanksMem(c: Core, k: CollKey, n: nat, out: Bytes)
    requires k in c.work.colls && n <= |c.work.colls[k].slots|
    ensures Emptied(c, CompleteRanks(c, k, n, out), k, n)
    ensures CompleteRanks(c, k, n, out).mem == CompleteMem(c.mem, c.work.colls[k].slots, n, out)
  {
    if n > 0 {
      CompleteRanksMem(c, k, n - 1, out);
      CompleteSlotMem(c, CompleteRanks(c, k, n - 1, out), k, n - 1, out);
    }
  }

  /** Failing an entry changes memory by `FailMem` and drops the entry. */
  lemma FailCollMem(c: Core, k: CollKey, status: Status)
    requires k in c.work.colls
    ensures FailColl(c, k, status) ==
            Core(FailMem(c.mem, c.work.colls[k].slots, |c.work.colls[k].slots|, status), EraseColl(c, k).work)
  {
    var n := |c.work.colls[k].slots|;
    FailRanksMem(c, k, n, status);
    EmptiedErases(c, FailRanks(c, k, n, status), k, n);
  }

  lemma CompleteCollMem(c: Core, k: CollKey, out: Bytes)
    requires k in c.work.colls
    ensures EraseColl(CompleteRanks(c, k, |c.work.colls[k].slots|, out), k) ==
            Core(CompleteMem(c.mem, c.work.colls[k].slots, |c.work.colls[k].slots|, out), EraseColl(c, k).work)
  {
    var n := |c.work.colls[k].slots|;
    CompleteRanksMem(c, k, n, out);
    EmptiedErases(c, CompleteRanks(c, k, n, out), k, n);
  }

  // ---------------------------------------------------------------------------
  // Which requests are admitted, in the caller's terms

  function SizesOf(kind: CollKind, count: nat, dtype: DataType, size: nat): Option<(nat, nat)> {
    match CheckedBytes(count, dtype)
    case None => None
    case Some(input) =>
      match OutBytes(kind, input, size)
      case None => None
      case Some(output) => Some((input, output))
  }

  /** A rejected call changes nothing; any other call returns a new IO. */
  predicate Answered(e: Engine, e': Engine, reply: Reply) {
    if reply.status == Ok then reply.handle == Some(e.mem.next) && e.mem.next in e'.mem.ios
    else reply == Reply(InvalidArgument, None) && e' == e
  }

  lemma CollectiveAnswers(
    f: Reducer, e: Engine, client: nat, kind: CollKind, dst: nat, dstOffset: nat, src: nat, srcOffset: nat,
    count: nat, dtype: DataType, op: ReduceOp)
    requires Inv(e) && client in e.clients && dst in e.mem.buffers && src in e.mem.buffers
    ensures var r := SubmitCollective(f, e, client, kind, dst, dstOffset, src, srcOffset, count, dtype, op);
            var counter := CollCounter(kind);
            && Answered(e, r.0, r.1) && client in r.0.clients
            && Seq(r.0.clients[client], counter) == Seq(e.clients[client], counter) +
                 if CollectiveAdmitted(e.clients[client], e.mem, kind, dst, dstOffset, src, srcOffset, count, dtype,
                                       op) then 1 else 0
  {
    var r := SubmitCollective(f, e, client, kind, dst, dstOffset, src, srcOffset, count, dtype, op);
    CollectiveAdmittedExactly(e.clients[client], e.mem, kind, dst, dstOffset, src, srcOffset, count, dtype, op);
    DecidedArrival(e.clients[client], e.mem, kind, dst, dstOffset, src, srcOffset, count, dtype, op);
    match DecideCollective(e.clients[client], e.mem, kind, dst, dstOffset, src, srcOffset, count, dtype, op)
    case Reject(_) => assert r == Rejected(e, InvalidArgument);
    case Complete(status) => assert r == Completed(e, status, 0, 0);
    case Join(q) =>
      assert r == SimEngine.JoinCollective(f, e, client, q, dst, dstOffset);
      ArriveCore(f, CoreOf(e), q.key, q.params, e.clients[client].rank, q.payload, dst, dstOffset);
  }

  lemma TransferAnswers(
    e: Engine, client: nat, table: PairTable, role: PairRole, buffer: Buffer, handle: nat, offset: nat,
    count: nat, dtype: DataType, peer: nat)
    requires Inv(e) && client in e.clients
    requires role == RecvRole ==> handle in e.mem.buffers && e.mem.buffers[handle] == buffer
    ensures var r := SubmitTransfer(e, client, table, role, buffer, handle, offset, count, dtype, peer);
            var counter := PairCounter(table, role);
            && Answered(e, r.0, r.1) && client in r.0.clients
            && Seq(r.0.clients[client], counter) == Seq(e.clients[client], counter) +
                 if TransferAdmitted(e.clients[client], client, table, buffer, offset, count, dtype, peer) then 1 else 0
  {
    var r := SubmitTransfer(e, client, table, role, buffer, handle, offset, count, dtype, peer);
    TransferAdmittedExactly(e.clients[client], client, table, role, buffer, offset, count, dtype, peer);
    SubmitTransferInv(e, client, table, role, buffer, handle, offset, count, dtype, peer);
    match DecideTransfer(e.clients[client], client, table, role, buffer, offset, count, dtype, peer)
    case Reject(_) => assert r == Rejected(e, InvalidArgument);
    case Complete(status) => assert r == Completed(e, status, 0, 0);
    case Join(q) => assert r == JoinTransfer(e, client, role, q, handle, offset);
  }

  /** Every entry of a pair table waits for exactly one half. */
  predicate OneHalfWaits(pairs: map<PairKey, PendingPair>) {
    forall k :: k in pairs ==> (pairs[k].send.Some? <==> pairs[k].recv == None)
  }

  // ---------------------------------------------------------------------------
  // The library object

  class Library {
    var clients: map<nat, Client>
    var buffers: map<nat, Buffer>
    var ios: map<nat, Io>
    var next: nat
    /** Set when a released handle is touched or a reference is dropped that was not held. */
    var fault: bool
    var colls: map<CollKey, PendingColl>
    var pairs: map<PairKey, PendingPair>
    var windows: map<nat, Window>
    var tasks: map<nat, Task>
    var workers: map<nat, Worker>
    var blocks: map<nat, Block>
    var plans: map<nat, Plan>

    function Memory(): Mem
      reads this
    {
      Mem(buffers, ios, next, fault)
    }

    function Waiting(): Work
      reads this
    {
      Work(colls, pairs, windows, tasks, workers)
    }

    function State(): Engine
      reads this
    {
      Engine(clients, Memory(), Waiting(), blocks, plans)
    }

    /** The engine invariant. It includes that nothing released was ever touched. */
    ghost predicate Valid()
      reads this
    {
      Inv(State())
    }

    constructor ()
      ensures Valid() && State() == EMPTY
    {
      EmptyInv();
      clients, buffers, ios, next, fault := map[], map[], map[], 0, false;
      colls, pairs, windows, tasks, workers := map[], map[], map[], map[], map[];
      blocks, plans := map[], map[];
    }

    method RetainPendingBuffer(b: nat)
      modifies this
      ensures State() == old(State()).(mem := RetainBuffer(old(Memory()), b))
    {
      if b in buffers {
        buffers := buffers[b := buffers[b].(pending := buffers[b].pending + 1)];
      } else {
        fault := true;
      }
    }

    method ReleasePendingBuffer(b: nat)
      modifies this
      ensures State() == old(State()).(mem := ReleaseBuffer(old(Memory()), b))
    {
      if b in buffers && buffers[b].pending > 0 {
        buffers := buffers[b := buffers[b].(pending := buffers[b].pending - 1)];
      } else {
        fault := true;
      }
    }

    method CopyTo(b: nat, offset: nat, data: Bytes)
      modifies this
      ensures State() == old(State()).(mem := Store(old(Memory()), b, offset, data))
    {
      if ValidRange(Memory(), b, offset, |data|) {
        buffers := buffers[b := buffers[b].(bytes := Overwrite(buffers[b].bytes, offset, data))];
      } else {
        fault := true;
      }
    }

    method MakeIo(io: Io) returns (id: nat)
      modifies this
      ensures id == old(next) && State() == old(State()).(mem := NewIo(old(Memory()), io))
    {
      id := next;
      ios := ios[id := io];
      next := next + 1;
    }

    method CompletePendingIo(io: nat, status: Status, bytes: nat, checksum: bv32)
      modifies this
      ensures State() == old(State()).(mem := FinishIo(old(Memory()), io, status, bytes, checksum))
    {
      if io in ios && ios[io].refs > 0 {
        ios := ios[io := Io(true, status, bytes, checksum, ios[io].refs - 1)];
      } else {
        fault := true;
      }
    }

    // -------------------------------------------------------------------------
    // Collectives

    method FailPendingCollective(k: CollKey, status: Status)
      modifies this
      ensures State() == WithCore(old(State()), FailColl(CoreOf(old(State())), k, status))
    {
      if k !in colls {
        return;
      }
      ghost var m := Memory();
      var slots := colls[k].slots;
      for rank := 0 to |slots|
        invariant State() == old(State()).(mem := FailMem(m, slots, rank, status))
      {
        if slots[rank].Some? {
          ReleasePendingBuffer(slots[rank].value.dst);
          CompletePendingIo(slots[rank].value.io, status, 0, 0);
        }
      }
      FailCollMem(CoreOf(old(State())), k, status);
      colls := colls - {k};
    }

    /** Writes the output to every rank that has arrived, in rank order, and drops the entry. */
    method DeliverCollective(k: CollKey, out: Bytes)
      requires k in colls
      modifies this
      ensures State() == WithCore(old(State()),
                                  EraseColl(CompleteRanks(CoreOf(old(State())), k, |old(colls)[k].slots|, out), k))
    {
      ghost var m := Memory();
      var slots := colls[k].slots;
      for rank := 0 to |slots|
        invariant State() == old(State()).(mem := CompleteMem(m, slots, rank, out))
      {
        if slots[rank].Some? {
          CopyTo(slots[rank].value.dst, slots[rank].value.offset, out);
          ReleasePendingBuffer(slots[rank].value.dst);
          CompletePendingIo(slots[rank].value.io, Ok, |out|, Checksum32(out));
        }
      }
      CompleteCollMem(CoreOf(old(State())), k, out);
      colls := colls - {k};
    }

    method CompletePendingCollective(f: Reducer, k: CollKey)
      modifies this
      ensures State() == WithCore(old(State()), FinishColl(f, CoreOf(old(State())), k))
    {
      if k !in colls || |colls[k].slots| == 0 {
        return;
      }
      var output := ComputeOutput(f, k.kind, colls[k].params, Payloads(colls[k]));
      match output {
        case None => FailPendingCollective(k, Unsupported);
        case Some(out) => DeliverCollective(k, out);
      }
    }

    /** A validated submission joins its entry; the last arrival completes it. */
    method JoinCollective(f: Reducer, k: CollKey, p: CollParams, rank: nat, payload: Bytes, dst: nat, offset: nat)
      modifies this
      ensures State() == WithCore(old(State()), Arrive(f, CoreOf(old(State())), k, p, rank, payload, dst, offset))
    {
      var e := EntryOr(Waiting(), k, p);
      if e.params != p || rank >= |e.slots| || e.slots[rank].Some? {
        FailPendingCollective(k, InvalidArgument);
        var _ := MakeIo(DoneIo(InvalidArgument));
      } else {
        var io := MakeIo(PendingIo());
        RetainPendingBuffer(dst);
        colls := colls[k := PendingColl(p, e.slots[rank := Some(CollSlot(payload, dst, offset, io))], e.arrivals + 1)];
        if e.arrivals + 1 == k.size {
          CompletePendingCollective(f, k);
        }
      }
    }

    method TakeNumber(client: nat, counter: Counter)
      requires client in clients
      modifies this
      ensures State() == Advance(old(State()), client, counter)
    {
      var c := clients[client];
      clients := clients[client := c.(counters := c.counters[counter := Seq(c, counter) + 1])];
    }

    method EnterCollective(f: Reducer, client: nat, q: CollRequest, dst: nat, offset: nat)
      requires client in clients
      modifies this
      ensures State() == SimEngine.JoinCollective(f, old(State()), client, q, dst, offset).0
    {
      TakeNumber(client, CollCounter(q.key.kind));
      JoinCollective(f, q.key, q.params, clients[client].rank, q.payload, dst, offset);
    }

    // -------------------------------------------------------------------------
    // Pair transfers

    method FailPendingPair(k: PairKey, status: Status)
      modifies this
      ensures State() == WithCore(old(State()), FailPair(CoreOf(old(State())), k, status))
    {
      if k in pairs {
        var e := pairs[k];
        if e.recv.Some? {
          ReleasePendingBuffer(e.recv.value.dst);
        }
        if e.send.Some? {
          CompletePendingIo(e.send.value.io, status, 0, 0);
        }
        if e.recv.Some? {
          CompletePendingIo(e.recv.value.io, status, 0, 0);
        }
        pairs := pairs - {k};
      }
    }

    method CompletePendingPair(k: PairKey)
      modifies this
      ensures State() == WithCore(old(State()), FinishPair(CoreOf(old(State())), k))
    {
      if k in pairs && pairs[k].send.Some? && pairs[k].recv.Some? {
        var send, recv := pairs[k].send.value, pairs[k].recv.value;
        CopyTo(recv.dst, recv.offset, send.payload);
        ReleasePendingBuffer(recv.dst);
        CompletePendingIo(recv.io, Ok, |send.payload|, Checksum32(send.payload));
        CompletePendingIo(send.io, Ok, |send.payload|, Checksum32(send.payload));
        pairs := pairs - {k};
      }
    }

    method JoinPair(k: PairKey, role: PairRole, meta: PairMeta, payload: Bytes, dst: nat, offset: nat)
      modifies this
      ensures State() == WithCore(old(State()), Meet(CoreOf(old(State())), k, role, meta, payload, dst, offset))
    {
      var e := PairOr(Waiting(), k);
      if (e.meta.Some? && e.meta.value != meta) || (if role == SendRole then e.send.Some? else e.recv.Some?) {
        FailPendingPair(k, InvalidArgument);
        var _ := MakeIo(DoneIo(InvalidArgument));
        return;
      }
      var io := MakeIo(PendingIo());
      if role == SendRole {
        pairs := pairs[k := e.(meta := Some(meta), send := Some(SendHalf(payload, io)))];
      } else {
        RetainPendingBuffer(dst);
        pairs := pairs[k := e.(meta := Some(meta), recv := Some(RecvHalf(dst, offset, io)))];
      }
      if pairs[k].send.Some? && pairs[k].recv.Some? {
        CompletePendingPair(k);
      }
    }

    method EnterTransfer(client: nat, role: PairRole, q: PairRequest, handle: nat, offset: nat)
      requires client in clients
      modifies this
      ensures State() == JoinTransfer(old(State()), client, role, q, handle, offset).0
    {
      TakeNumber(client, PairCounter(q.key.table, role));
      JoinPair(q.key, role, q.meta, q.payload, handle, offset);
    }

    // -------------------------------------------------------------------------
    // Checks

    /** The checks of a collective, in order. */
    method CheckCollective(
      client: nat, kind: CollKind, dst: nat, dstOffset: nat, src: nat, srcOffset: nat, count: nat, dtype: DataType,
      op: ReduceOp
    ) returns (d: Decision<CollRequest>)
      requires client in clients && dst in buffers && src in buffers
      ensures d == DecideCollective(clients[client], Memory(), kind, dst, dstOffset, src, srcOffset, count, dtype, op)
    {
      var c := clients[client];
      if !c.attached || c.size == 0 {
        return Complete(Unsupported);
      }
      if kind == AllReduce && op == UnknownOp {
        return Reject(InvalidArgument);
      }
      var sizes := CheckSizes(kind, count, dtype, c.size);
      if sizes == None {
        return Reject(InvalidArgument);
      }
      d := CheckRanges(client, kind, dst, dstOffset, src, srcOffset,
                       CollParams(count, dtype, op, sizes.value.0, sizes.value.1));
    }

    method CheckRanges(client: nat, kind: CollKind, dst: nat, dstOffset: nat, src: nat, srcOffset: nat, p: CollParams)
      returns (d: Decision<CollRequest>)
      requires client in clients && dst in buffers && src in buffers
      ensures d == DecideSized(clients[client], Memory(), kind, dst, dstOffset, src, srcOffset, p)
    {
      var c := clients[client];
      if !Fits(buffers[src], srcOffset, p.inBytes) || !Fits(buffers[dst], dstOffset, p.outBytes) {
        return Reject(InvalidArgument);
      }
      if !IsSim(buffers[src].kind) || !IsSim(buffers[dst].kind) {
        return Complete(Unsupported);
      }
      var key := CollKey(c.comm, c.size, Seq(c, CollCounter(kind)), kind);
      return Join(CollRequest(key, p, buffers[src].bytes[srcOffset..srcOffset + p.inBytes]));
    }

    /** The input and output bytes of a collective, unless one of them overflows. */
    method CheckSizes(kind: CollKind, count: nat, dtype: DataType, size: nat) returns (sizes: Option<(nat, nat)>)
      ensures sizes == SizesOf(kind, count, dtype, size)
    {
      var input := CheckedBytes(count, dtype);
      if input == None {
        return None;
      }
      var output := input;
      if kind == AllGather {
        output := CheckedMul(input.value, size);
        if output == None {
          return None;
        }
      }
      return Some((input.value, output.value));
    }

    /** The checks of a send or receive, in order. */
    /** Sender and receiver name the same entry. */
    method PairEntryKey(c: Client, table: PairTable, role: PairRole, peer: nat) returns (key: PairKey)
      ensures key == TransferKey(c, table, role, peer)
    {
      var index := Seq(c, PairCounter(table, role));
      key := if role == SendRole then PairKey(table, c.comm, c.size, c.rank, peer, index)
             else PairKey(table, c.comm, c.size, peer, c.rank, index);
    }

    method CheckTransfer(
      client: nat, table: PairTable, role: PairRole, buffer: Buffer, offset: nat, count: nat, dtype: DataType, peer: nat
    ) returns (d: Decision<PairRequest>)
      requires client in clients
      ensures d == DecideTransfer(clients[client], client, table, role, buffer, offset, count, dtype, peer)
    {
      var c := clients[client];
      if !c.attached || c.size == 0 {
        return Complete(Unsupported);
      }
      if table == HcommPayload && c.size != 2 {
        return Complete(Unsupported);
      }
      if peer >= c.size || peer == c.rank {
        return Reject(InvalidArgument);
      }
      var bytes := CheckedBytes(count, dtype);
      if bytes == None || !Fits(buffer, offset, bytes.value) {
        return Reject(InvalidArgument);
      }
      if buffer.owner != client || !KindFits(table, buffer.kind) {
        return Reject(InvalidArgument);
      }
      var key := PairEntryKey(c, table, role, peer);
      return Join(PairRequest(key, PairMeta(count, dtype, bytes.value), buffer.bytes[offset..offset + bytes.value]));
    }

    /** The path and role of a plan. */
    method ChoosePath(o: DirectOptions, attached: bool, hasBlock: bool) returns (path: Path, role: PlanRole)
      ensures path == ChosenPath(o, attached) && role == ChosenRole(o, attached, hasBlock)
    {
      path, role := o.path, o.role;
      if path == AutoPath {
        path := if o.requireDirect then SimDirect else HostStaging;
        if attached {
          path := SimDirect;
        }
      }
      if role == AutoRole {
        role := if path == HostStaging then StagingRole else if hasBlock then SourceSend else TargetRecv;
      }
      if role == StagingRole {
        path := HostStaging;
      }
    }

    method CheckTargetPlan(
      client: nat, block: Option<nat>, dst: Option<nat>, dstOffset: nat, len: nat, direct: bool, window: Option<nat>)
      returns (outcome: PlanOutcome)
      requires (dst.Some? ==> dst.value in buffers) && (window.Some? ==> window.value in windows)
      ensures outcome == CheckTarget(State(), client, block, dst, dstOffset, len, direct, window)
    {
      if dst == None || buffers[dst.value].owner != client || block.Some? {
        return Refused(InvalidArgument);
      }
      var have := |buffers[dst.value].bytes|;
      var bytes := len;
      if bytes == 0 {
        if dstOffset > have {
          return Refused(InvalidArgument);
        }
        bytes := have - dstOffset;
      }
      if bytes == 0 || !Fits(buffers[dst.value], dstOffset, bytes) {
        return Refused(InvalidArgument);
      }
      if direct {
        if window == None {
          return Refused(InvalidArgument);
        }
        var w := windows[window.value];
        if w.client != client || w.buffer != dst.value {
          return Refused(InvalidArgument);
        }
        if dstOffset < w.offset || bytes > w.len || dstOffset - w.offset > w.len - bytes {
          return Refused(InvalidArgument);
        }
      }
      return Accepted(bytes);
    }

    /** The sizes and handles a plan of the given role needs. */
    method CheckRole(
      client: nat, block: Option<nat>, dst: Option<nat>, dstOffset: nat, o: DirectOptions, path: Path, role: PlanRole
    ) returns (outcome: PlanOutcome)
      requires (block.Some? ==> block.value in blocks) && (dst.Some? ==> dst.value in buffers)
      requires o.window.Some? ==> o.window.value in windows
      ensures outcome ==
              match role
              case SourceSend => CheckSource(State(), client, block, dst, o.len)
              case TargetRecv => CheckTarget(State(), client, block, dst, dstOffset, o.len, path == SimDirect, o.window)
              case StagingRole => CheckStaging(State(), client, block, dst, dstOffset, o.len)
              case _ => Refused(InvalidArgument)
    {
      if role == TargetRecv {
        outcome := CheckTargetPlan(client, block, dst, dstOffset, o.len, path == SimDirect, o.window);
        return;
      }
      if role != SourceSend && role != StagingRole {
        return Refused(InvalidArgument);
      }
      if block == None || blocks[block.value].client != client || (role == SourceSend && dst.Some?) {
        return Refused(InvalidArgument);
      }
      if role == StagingRole && (dst == None || buffers[dst.value].owner != client) {
        return Refused(InvalidArgument);
      }
      var have := |blocks[block.value].payload|;
      var bytes := if o.len == 0 then have else o.len;
      if bytes == 0 || bytes > have || (role == StagingRole && !Fits(buffers[dst.value], dstOffset, bytes)) {
        return Refused(InvalidArgument);
      }
      return Accepted(bytes);
    }

    /** The checks of a plan, in order. */
    method CheckPlanOptions(client: nat, block: Option<nat>, dst: Option<nat>, dstOffset: nat, o: DirectOptions)
      returns (outcome: PlanOutcome, path: Path, role: PlanRole)
      requires Legal(State(), ECreatePlan(client, block, dst, dstOffset, o))
      ensures outcome == CheckPlan(State(), client, block, dst, dstOffset, o)
      ensures path == ChosenPath(o, clients[client].attached)
      ensures role == ChosenRole(o, clients[client].attached, block.Some?)
    {
      var c := clients[client];
      path, role := ChoosePath(o, c.attached, block.Some?);
      if path == HostStaging && role != StagingRole {
        return Refused(InvalidArgument), path, role;
      }
      if o.requireDirect && path != SimDirect {
        return Refused(Unsupported), path, role;
      }
      if !o.allowStaging && path == HostStaging {
        return Refused(Unsupported), path, role;
      }
      outcome := CheckRole(client, block, dst, dstOffset, o, path, role);
      if outcome.Refused? || path != SimDirect {
        return;
      }
      if !c.attached {
        outcome := Refused(Unsupported);
      } else if c.size != 2 || o.peer >= c.size || o.peer == c.rank {
        outcome := Refused(InvalidArgument);
      } else if role == TargetRecv && dst.Some? && buffers[dst.value].kind != SimHbm {
        outcome := Refused(InvalidArgument);
      }
    }

    // -------------------------------------------------------------------------
    // Calls: clients and buffers

    /** A new client can do nothing in the simulation yet: its submissions are unsupported. */
    method OpenClient(client: nat) returns (reply: Reply)
      requires Valid() && client !in clients
      modifies this
      ensures Valid() && (State(), reply) == Open(old(State()), client)
      ensures reply.status == Ok && client in clients && !clients[client].attached
      ensures forall c :: c in old(clients) ==> c in clients && clients[c] == old(clients)[c]
    {
      OpenInv(State(), client);
      clients := clients[client := Client(false, "", 0, 0, map[])];
      return Reply(Ok, None);
    }

    method AttachSimComm(client: nat, comm: string, rank: nat, size: nat) returns (reply: Reply)
      requires Valid() && client in clients
      modifies this
      ensures Valid() && (State(), reply) == Attach(old(State()), client, comm, rank, size)
      ensures reply.status == Ok <==> comm != "" && rank < size
      ensures reply.status == Ok ==>
                clients == old(clients)[client := Client(true, comm, rank, size, map[])] &&
                forall counter :: Seq(clients[client], counter) == 0
    {
      AttachInv(State(), client, comm, rank, size);
      if comm == "" || size == 0 || rank >= size {
        return Reply(InvalidArgument, None);
      }
      clients := clients[client := Client(true, comm, rank, size, map[])];
      return Reply(Ok, None);
    }

    /** A new buffer: nobody refers to it yet. */
    method CreateBuffer(client: nat, bytes: Bytes, kind: BufferKind) returns (reply: Reply)
      requires Valid()
      modifies this
      ensures Valid() && (State(), reply) == NewBuffer(old(State()), client, bytes, kind)
      ensures Waiting() == old(Waiting()) && forall s :: !HoldsBuffer(Waiting(), s, old(next))
      ensures reply == if bytes == [] then Reply(InvalidArgument, None) else Reply(Ok, Some(old(next)))
      ensures buffers == if bytes == [] then old(buffers) else old(buffers)[old(next) := Buffer(client, bytes, kind, 0)]
    {
      ghost var e := State();
      reply := AddBufferRecord(client, bytes, kind);
      NewBufferInv(e, client, bytes, kind);
      NewHandleUnheld(e);
    }

    method AddBufferRecord(client: nat, bytes: Bytes, kind: BufferKind) returns (reply: Reply)
      modifies this
      ensures (State(), reply) == NewBuffer(old(State()), client, bytes, kind)
    {
      if bytes == [] {
        return Reply(InvalidArgument, None);
      }
      buffers := buffers[next := Buffer(client, bytes, kind, 0)];
      next := next + 1;
      return Reply(Ok, Some(next - 1));
    }

    /** The owner of the memory writes to it. */
    method WriteBuffer(b: nat, offset: nat, data: Bytes)
      requires Valid() && ValidRange(Memory(), b, offset, |data|)
      modifies this
      ensures Valid() && State() == old(State()).(mem := Store(old(Memory()), b, offset, data))
      ensures b in buffers && buffers.Keys == old(buffers).Keys && ios == old(ios) && !fault
      ensures IsAt(buffers[b].bytes, offset, data) && |buffers[b].bytes| == old(|buffers[b].bytes|)
      ensures forall i :: 0 <= i < |buffers[b].bytes| && !(offset <= i < offset + |data|) ==>
                buffers[b].bytes[i] == old(buffers)[b].bytes[i]
    {
      WriteInv(State(), b, offset, data);
      CopyTo(b, offset, data);
    }

    /** A buffer is released exactly when no waiting slot, window or worker names it. */
    method ReleaseUnusedBuffer(b: nat) returns (reply: Reply)
      requires Valid() && b in buffers
      modifies this
      ensures Valid() && (State(), reply) == FreeBuffer(old(State()), b)
      ensures reply.status == Ok <==> forall s :: !HoldsBuffer(old(Waiting()), s, b)
      ensures if reply.status == Ok then b !in buffers else State() == old(State())
    {
      FreeExactly(State(), b);
      FreeBufferInv(State(), b);
      if buffers[b].pending != 0 {
        return Reply(InvalidArgument, None);
      }
      buffers := buffers - {b};
      return Reply(Ok, None);
    }

    /** An IO is released exactly when it is complete. */
    method ReleaseIo(io: nat) returns (reply: Reply)
      requires Valid() && Legal(State(), EFreeIo(io))
      modifies this
      ensures Valid() && (State(), reply) == FreeIo(old(State()), io)
      ensures reply.status == Ok <==> old(ios[io].done)
      ensures if reply.status == Ok then io !in ios else State() == old(State())
    {
      FreeIoInv(State(), io);
      if ios[io].refs != 0 {
        return Reply(InvalidArgument, None);
      }
      ios := ios - {io};
      return Reply(Ok, None);
    }

    // -------------------------------------------------------------------------
    // Calls: submissions

    method EnterChecked(f: Reducer, client: nat, d: Decision<CollRequest>, dst: nat, offset: nat) returns (reply: Reply)
      requires client in clients
      modifies this
      ensures (State(), reply) ==
              match d
              case Reject(status) => Rejected(old(State()), status)
              case Complete(status) => Completed(old(State()), status, 0, 0)
              case Join(q) => SimEngine.JoinCollective(f, old(State()), client, q, dst, offset)
    {
      if d.Reject? {
        return Reply(d.status, None);
      }
      reply := Reply(Ok, Some(next));
      if d.Complete? {
        var _ := MakeIo(Io(true, d.status, 0, 0, 0));
      } else {
        EnterCollective(f, client, d.request, dst, offset);
      }
    }

    /** A collective call: rejected without a trace, or answered by a new IO; it takes the
        client's next number exactly when it is admitted. */
    method SubmitSimCollective(
      f: Reducer, client: nat, kind: CollKind, dst: nat, dstOffset: nat, src: nat, srcOffset: nat,
      count: nat, dtype: DataType, op: ReduceOp
    ) returns (reply: Reply)
      requires Valid() && client in clients && dst in buffers && src in buffers
      modifies this
      ensures Valid()
      ensures (State(), reply) ==
              SubmitCollective(f, old(State()), client, kind, dst, dstOffset, src, srcOffset, count, dtype, op)
      ensures Answered(old(State()), State(), reply)
      ensures client in clients &&
              Seq(clients[client], CollCounter(kind)) == old(Seq(clients[client], CollCounter(kind))) +
                if old(CollectiveAdmitted(clients[client], Memory(), kind, dst, dstOffset, src, srcOffset, count,
                                          dtype, op)) then 1 else 0
    {
      SubmitCollectiveInv(f, State(), client, kind, dst, dstOffset, src, srcOffset, count, dtype, op);
      CollectiveAnswers(f, State(), client, kind, dst, dstOffset, src, srcOffset, count, dtype, op);
      ghost var after := SubmitCollective(f, State(), client, kind, dst, dstOffset, src, srcOffset, count, dtype, op);
      var d := CheckCollective(client, kind, dst, dstOffset, src, srcOffset, count, dtype, op);
      reply := EnterChecked(f, client, d, dst, dstOffset);
      assert (State(), reply) == after;
    }

    method EnterCheckedPair(client: nat, role: PairRole, d: Decision<PairRequest>, handle: nat, offset: nat)
      returns (reply: Reply)
      requires client in clients
      modifies this
      ensures (State(), reply) ==
              match d
              case Reject(status) => Rejected(old(State()), status)
              case Complete(status) => Completed(old(State()), status, 0, 0)
              case Join(q) => JoinTransfer(old(State()), client, role, q, handle, offset)
    {
      if d.Reject? {
        return Reply(d.status, None);
      }
      reply := Reply(Ok, Some(next));
      if d.Complete? {
        var _ := MakeIo(Io(true, d.status, 0, 0, 0));
      } else {
        EnterTransfer(client, role, d.request, handle, offset);
      }
    }

    /** A send or receive of either table, on a buffer of the library's or on a block's memory. */
    method Transfer(
      client: nat, table: PairTable, role: PairRole, buffer: Buffer, handle: nat, offset: nat, count: nat,
      dtype: DataType, peer: nat
    ) returns (reply: Reply)
      requires client in clients
      modifies this
      ensures (State(), reply) ==
              SubmitTransfer(old(State()), client, table, role, buffer, handle, offset, count, dtype, peer)
    {
      var d := CheckTransfer(client, table, role, buffer, offset, count, dtype, peer);
      reply := EnterCheckedPair(client, role, d, handle, offset);
    }

    /** A send or receive call: rejected without a trace, or answered by a new IO; it takes the
        client's next number exactly when it is admitted, and no entry of the tables is left
        with both halves or with none. */
    method SubmitSimTransfer(
      client: nat, table: PairTable, role: PairRole, b: nat, offset: nat, count: nat, dtype: DataType, peer: nat
    ) returns (reply: Reply)
      requires Valid() && client in clients && b in buffers
      modifies this
      ensures Valid() && OneHalfWaits(pairs)
      ensures (State(), reply) ==
              SubmitTransfer(old(State()), client, table, role, old(buffers[b]), b, offset, count, dtype, peer)
      ensures Answered(old(State()), State(), reply)
      ensures client in clients &&
              Seq(clients[client], PairCounter(table, role)) == old(Seq(clients[client], PairCounter(table, role))) +
                if old(TransferAdmitted(clients[client], client, table, buffers[b], offset, count, dtype, peer)) then 1
                  else 0
    {
      ghost var e := State();
      reply := Transfer(client, table, role, buffers[b], b, offset, count, dtype, peer);
      SubmitTransferInv(e, client, table, role, e.mem.buffers[b], b, offset, count, dtype, peer);
      TransferAnswers(e, client, table, role, e.mem.buffers[b], b, offset, count, dtype, peer);
      HalvesWait(State());
    }

    // -------------------------------------------------------------------------
    // Calls: target windows

    /** A window pins the buffer it names: releasing the buffer is refused from now on. */
    method RegisterTargetMemory(client: nat, b: nat, offset: nat, len: nat) returns (reply: Reply)
      requires Valid() && b in buffers
      modifies this
      ensures Valid() && (State(), reply) == RegisterWindow(old(State()), client, b, offset, len)
      ensures reply.status == Ok <==>
              old(len > 0 && buffers[b].owner == client && buffers[b].kind == SimHbm &&
                  ValidRange(Memory(), b, offset, len))
      ensures if reply.status == Ok then
                && reply.handle == Some(old(next)) && WindowPins(State(), old(next), b)
                && windows == old(windows)[old(next) := Window(client, b, offset, len, 0)]
              else State() == old(State()) && reply == Reply(InvalidArgument, None)
    {
      ghost var e := State();
      reply := AddWindowRecord(client, b, offset, len);
      RegisterInv(e, client, b, offset, len);
      RegisterPins(e, client, b, offset, len);
    }

    method AddWindowRecord(client: nat, b: nat, offset: nat, len: nat) returns (reply: Reply)
      requires b in buffers
      modifies this
      ensures (State(), reply) == RegisterWindow(old(State()), client, b, offset, len)
    {
      if len == 0 || buffers[b].owner != client || buffers[b].kind != SimHbm || !Fits(buffers[b], offset, len) {
        return Reply(InvalidArgument, None);
      }
      var id := next;
      next := next + 1;
      windows := windows[id := Window(client, b, offset, len, 0)];
      RetainPendingBuffer(b);
      return Reply(Ok, Some(id));
    }

    /** A window is released exactly when no plan names it. */
    method ReleaseTargetWindow(id: nat) returns (reply: Reply)
      requires Valid() && id in windows
      modifies this
      ensures Valid() && (State(), reply) == ReleaseWindow(old(State()), id)
      ensures reply.status == Ok <==> forall p :: p in old(plans) ==> old(plans)[p].window != Some(id)
      ensures if reply.status == Ok then id !in windows else State() == old(State())
    {
      UnregisterInv(State(), id);
      WindowFreeExactly(State(), id);
      if windows[id].planRefs != 0 {
        return Reply(InvalidArgument, None);
      }
      ReleasePendingBuffer(windows[id].buffer);
      windows := windows - {id};
      return Reply(Ok, None);
    }

    // -------------------------------------------------------------------------
    // Calls: blocks, plans and reads

    method PrepareBlock(client: nat, payload: Bytes) returns (reply: Reply)
      requires Valid()
      modifies this
      ensures Valid() && (State(), reply) == Prepare(old(State()), client, payload)
      ensures reply == Reply(Ok, Some(old(next))) && blocks == old(blocks)[old(next) := Block(client, payload)]
    {
      PrepareInv(State(), client, payload);
      blocks := blocks[next := Block(client, payload)];
      next := next + 1;
      return Reply(Ok, Some(next - 1));
    }

    /** A block is released at any time, whether or not a plan still points to it. */
    method ReleaseBlock(b: nat)
      requires Valid() && b in blocks
      modifies this
      ensures Valid() && State() == old(State()).(blocks := old(blocks) - {b})
    {
      blocks := blocks - {b};
    }

    /** A plan is made exactly when it is admitted, and is then the one asked for: it lies
        inside its window if it receives directly, is not staged through the host if that was
        ruled out, and pins the window it was given. A refusal changes nothing and says why. */
    method CreateDirectPlan(client: nat, block: Option<nat>, dst: Option<nat>, dstOffset: nat, o: DirectOptions)
      returns (reply: Reply)
      requires Valid() && Legal(State(), ECreatePlan(client, block, dst, dstOffset, o))
      modifies this
      ensures Valid() && (State(), reply) == CreatePlan(old(State()), client, block, dst, dstOffset, o)
      ensures reply.status == Ok <==> PlanAdmitted(old(State()), client, block, dst, dstOffset, o)
      ensures reply.status == Ok ==>
                && reply.handle == Some(old(next)) && old(next) in plans && PlanPinned(State(), old(next), o)
                && PlanAsAsked(old(State()), client, block, dst, dstOffset, o, plans[old(next)])
      ensures reply.status != Ok ==>
                && State() == old(State()) && reply.handle == None
                && reply.status ==
                   (if PathUnsupported(State(), client, block, dst, dstOffset, o) then Unsupported else InvalidArgument)
    {
      ghost var e := State();
      reply := MakePlan(client, block, dst, dstOffset, o);
      CreatePlanInv(e, client, block, dst, dstOffset, o);
      CreatedIsPinned(e, client, block, dst, dstOffset, o);
      PlanAdmittedExactly(e, client, block, dst, dstOffset, o);
    }

    method MakePlan(client: nat, block: Option<nat>, dst: Option<nat>, dstOffset: nat, o: DirectOptions)
      returns (reply: Reply)
      requires Legal(State(), ECreatePlan(client, block, dst, dstOffset, o))
      modifies this
      ensures (State(), reply) == CreatePlan(old(State()), client, block, dst, dstOffset, o)
    {
      var outcome, path, role := CheckPlanOptions(client, block, dst, dstOffset, o);
      match outcome {
        case Refused(status) =>
          reply := Reply(status, None);
        case Accepted(bytes) =>
          reply := Reply(Ok, Some(next));
          AddPlanRecord(Plan(client, block, dst, o.window, dstOffset, path, role, o.peer, o.requireDirect,
                             o.allowStaging, bytes));
      }
    }

    method AddPlanRecord(p: Plan)
      requires p.window.Some? ==> p.window.value in windows
      modifies this
      ensures State() == old(State()).(mem := Bump(old(Memory())), work := MovePlanRefs(old(Waiting()), p.window, 1),
                                       plans := old(plans)[old(next) := p])
    {
      plans := plans[next := p];
      next := next + 1;
      if p.window.Some? {
        var w := p.window.value;
        windows := windows[w := windows[w].(planRefs := windows[w].planRefs + 1)];
      }
    }

    /** The plan is gone, and its window can be released if no other plan names it. */
    method ReleaseDirectPlan(id: nat) returns (reply: Reply)
      requires Valid() && id in plans
      modifies this
      ensures Valid() && (State(), reply) == FreePlan(old(State()), id)
      ensures reply.status == Ok && plans == old(plans) - {id}
      ensures old(plans[id].window.Some?) ==> WindowFreedWithPlans(State(), old(plans[id].window.value))
    {
      ghost var e := State();
      reply := DropPlanRecord(id);
      FreePlanInv(e, id);
      PlanReleased(e, id);
    }

    method DropPlanRecord(id: nat) returns (reply: Reply)
      requires id in plans
      modifies this
      ensures (State(), reply) == FreePlan(old(State()), id)
    {
      var window := plans[id].window;
      if window.Some? {
        var w := window.value;
        if w !in windows {
          fault := true;
          return Reply(Ok, None);
        }
        windows := windows[w := windows[w].(planRefs := windows[w].planRefs - 1)];
      }
      plans := plans - {id};
      return Reply(Ok, None);
    }

    method StageToHbm(client: nat, block: Block, dst: nat, dstOffset: nat) returns (reply: Reply)
      requires dst in buffers
      modifies this
      ensures (State(), reply) == ReadToHbm(old(State()), client, block, dst, dstOffset)
    {
      var b := buffers[dst];
      if block.client != client || b.owner != client || !Fits(b, dstOffset, |block.payload|) {
        return Reply(InvalidArgument, None);
      }
      if b.kind == SimHbm {
        CopyTo(dst, dstOffset, block.payload);
        var io := MakeIo(Io(true, Ok, |block.payload|, Checksum32(block.payload), 0));
        return Reply(Ok, Some(io));
      }
      if b.kind == AscendHbm || b.kind == HcclComm {
        var io := MakeIo(Io(true, Unsupported, 0, 0, 0));
        return Reply(Ok, Some(io));
      }
      return Reply(InvalidArgument, None);
    }

    /** Gives the caller an IO of its own and starts the thread that forwards to it. */
    method WrapIo(inner: Reply) returns (reply: Reply)
      modifies this
      ensures (State(), reply) == Wrap((old(State()), inner))
    {
      if inner.status != Ok || inner.handle == None {
        return inner;
      }
      var wrapper := MakeIo(PendingIo());
      tasks := tasks[wrapper := Task(wrapper, inner.handle.value)];
      return Reply(Ok, Some(wrapper));
    }

    /** A read of a plan whose block and destination the caller has kept. */
    method ReadStorageToHbm(client: nat, id: nat) returns (reply: Reply)
      requires Valid() && Legal(State(), ERead(client, id))
      modifies this
      ensures Valid() && (State(), reply) == Read(old(State()), client, id)
      ensures if reply.status == Ok then reply.handle.Some? && reply.handle.value in ios else State() == old(State())
      ensures plans == old(plans) && windows == old(windows)
    {
      ghost var e := State();
      reply := FollowPlan(client, id);
      ReadInv(e, client, id);
      ReadAnswers(e, client, id);
      ReadPersists(e, client, id);
    }

    /** Follows the plan's handles, alive or not. */
    method FollowPlan(client: nat, id: nat) returns (reply: Reply)
      requires client in clients && id in plans
      modifies this
      ensures (State(), reply) == Read(old(State()), client, id)
    {
      var p := plans[id];
      if p.client != client {
        return Reply(InvalidArgument, None);
      }
      if p.path == HostStaging {
        if p.requireDirect || !p.allowStaging {
          var io := MakeIo(Io(true, Unsupported, 0, 0, 0));
          return Reply(Ok, Some(io));
        }
        if p.block == None || p.block.value !in blocks || p.dst == None || p.dst.value !in buffers {
          fault := true;
          return Reply(Ok, None);
        }
        var inner := StageToHbm(client, blocks[p.block.value], p.dst.value, p.dstOffset);
        reply := WrapIo(inner);
      } else if p.path != SimDirect {
        var io := MakeIo(Io(true, Unsupported, 0, 0, 0));
        reply := Reply(Ok, Some(io));
      } else {
        reply := ReadDirect(client, id);
      }
    }

    method ReadDirect(client: nat, id: nat) returns (reply: Reply)
      requires client in clients && id in plans && plans[id].client == client && plans[id].path == SimDirect
      modifies this
      ensures (State(), reply) == Read(old(State()), client, id)
    {
      var p := plans[id];
      if p.role == SourceSend {
        if p.block == None || p.block.value !in blocks {
          fault := true;
          return Reply(Ok, None);
        }
        var block := Buffer(client, blocks[p.block.value].payload, SimHbm, 0);
        var inner := Transfer(client, HcommPayload, SendRole, block, 0, 0, p.bytes, UInt8, p.peer);
        reply := WrapIo(inner);
      } else if p.role == TargetRecv {
        if p.dst == None || p.dst.value !in buffers {
          fault := true;
          return Reply(Ok, None);
        }
        var dst := p.dst.value;
        var inner := Transfer(client, HcommPayload, RecvRole, buffers[dst], dst, p.dstOffset, p.bytes, UInt8, p.peer);
        reply := WrapIo(inner);
      } else {
        reply := Reply(InvalidArgument, None);
      }
    }

    /** The forwarding thread, once its inner IO is done: the caller's IO has the inner outcome
        and the inner IO is gone. */
    method CompleteFromInner(id: nat)
      requires Valid() && Legal(State(), EForward(id))
      modifies this
      ensures Valid() && State() == Forward(old(State()), id)
      ensures old(tasks[id].inner) in old(ios) && old(tasks[id].inner) !in ios
      ensures var inner := old(ios)[old(tasks[id].inner)];
              FinishedWith(Memory(), old(tasks[id].wrapper), inner.status, inner.bytes, inner.checksum)
    {
      ForwardInv(State(), id);
      ForwardHandsOver(State(), id);
      var t := tasks[id];
      var io := ios[t.inner];
      ios := ios - {t.inner};
      CompletePendingIo(t.wrapper, io.status, io.bytes, io.checksum);
      tasks := tasks - {id};
    }

    // -------------------------------------------------------------------------
    // RoCE workers

    /** A worker holds its buffer until it releases it, and its IO until it finishes. */
    method StartRoceWorker(b: nat) returns (reply: Reply)
      requires Valid() && b in buffers
      modifies this
      ensures Valid() && (State(), reply) == StartWorker(old(State()), b)
      ensures HoldsBuffer(Waiting(), WorkerAt(old(next)), b) && HoldsIo(Waiting(), WorkerAt(old(next)), old(next))
    {
      ghost var e := State();
      reply := AddWorkerRecord(b);
      StartInv(e, b);
      WorkerStarted(e, b);
    }

    method AddWorkerRecord(b: nat) returns (reply: Reply)
      modifies this
      ensures (State(), reply) == StartWorker(old(State()), b)
    {
      var io := MakeIo(PendingIo());
      RetainPendingBuffer(b);
      workers := workers[io := Worker(Some(b), io)];
      return Reply(Ok, Some(io));
    }

    method WorkerReleasesBuffer(id: nat)
      requires Valid() && id in workers
      modifies this
      ensures Valid() && State() == WorkerReleases(old(State()), id)
      ensures forall b :: !HoldsBuffer(Waiting(), WorkerAt(id), b)
    {
      ghost var e := State();
      DropWorkerBuffer(id);
      ReleasesInv(e, id);
    }

    method DropWorkerBuffer(id: nat)
      requires id in workers
      modifies this
      ensures State() == WorkerReleases(old(State()), id)
    {
      var k := workers[id];
      if k.buffer.Some? {
        ReleasePendingBuffer(k.buffer.value);
        workers := workers[id := k.(buffer := None)];
      }
    }

    method WorkerCompletes(id: nat, status: Status, bytes: nat, checksum: bv32)
      requires Valid() && id in workers && workers[id].buffer == None
      modifies this
      ensures Valid() && State() == WorkerFinishes(old(State()), id, status, bytes, checksum)
      ensures id !in workers && old(workers[id].io) in ios
      ensures ios[old(workers[id].io)] == Io(true, status, bytes, checksum, 0)
    {
      WorkerIo(State(), id);
      FinishesInv(State(), id, status, bytes, checksum);
      CompletePendingIo(workers[id].io, status, bytes, checksum);
      workers := workers - {id};
    }
  }

  // ---------------------------------------------------------------------------
  // What the calls rely on

  lemma HalvesWait(e: Engine)
    requires Inv(e)
    ensures OneHalfWaits(e.work.pairs)
  {
    forall k | k in e.work.pairs
      ensures e.work.pairs[k].send.Some? <==> e.work.pairs[k].recv == None
    {
      assert PairValid(e.mem, e.work.pairs[k]);
    }
  }

  lemma NewHandleUnheld(e: Engine)
    requires Inv(e)
    ensures forall s :: !HoldsBuffer(e.work, s, e.mem.next)
  {
  }

  lemma WorkerStarted(e: Engine, b: nat)
    ensures var w := StartWorker(e, b).0.work;
            HoldsBuffer(w, WorkerAt(e.mem.next), b) && HoldsIo(w, WorkerAt(e.mem.next), e.mem.next)
  {
  }

  /** The window holds the buffer, and releasing the buffer is refused. */
  predicate WindowPins(e: Engine, id: nat, b: nat) {
    && HoldsBuffer(e.work, WindowAt(id), b)
    && b in e.mem.buffers && FreeBuffer(e, b) == (e, Reply(InvalidArgument, None))
  }

  lemma RegisterPins(e: Engine, client: nat, b: nat, offset: nat, len: nat)
    requires Inv(e) && b in e.mem.buffers
    ensures var r := RegisterWindow(e, client, b, offset, len);
            r.1.status == Ok ==> r.1.handle == Some(e.mem.next) && WindowPins(r.0, e.mem.next, b)
  {
    var r := RegisterWindow(e, client, b, offset, len);
    RegisterInv(e, client, b, offset, len);
    if r.1.status == Ok {
      HeldReferences(r.0.mem, r.0.work, WindowAt(e.mem.next), Hold(Some(b), None));
    }
  }

  /** The window can be released exactly when no plan is left on it. */
  predicate WindowFreedWithPlans(e: Engine, w: nat) {
    w in e.work.windows &&
      (ReleaseWindow(e, w).1.status == Ok <==> forall p :: p in e.plans ==> e.plans[p].window != Some(w))
  }

  lemma PlanReleased(e: Engine, id: nat)
    requires Inv(e) && id in e.plans
    ensures var e' := FreePlan(e, id).0;
            && e'.plans == e.plans - {id}
            && (e.plans[id].window.Some? ==> WindowFreedWithPlans(e', e.plans[id].window.value))
  {
    FreePlanInv(e, id);
    WindowPinned(e, id);
    if e.plans[id].window.Some? {
      WindowFreeExactly(FreePlan(e, id).0, e.plans[id].window.value);
    }
  }

  lemma WindowFreeExactly(e: Engine, id: nat)
    requires Inv(e) && id in e.work.windows
    ensures ReleaseWindow(e, id).1.status == Ok <==> forall p :: p in e.plans ==> e.plans[p].window != Some(id)
  {
    if e.work.windows[id].planRefs == 0 {
      NoPlans(e.plans, e.work.windows, e.mem.next, id);
    } else {
      var p :| p in PlansOn(e.plans, id);
      assert e.plans[p].window == Some(id);
    }
  }

  /** A call that returns a handle returns a live one; any other call changes nothing. */
  predicate Replied(e: Engine, r: (Engine, Reply)) {
    if r.1.status == Ok then r.1.handle.Some? && r.1.handle.value in r.0.mem.ios else r.0 == e
  }

  lemma WrapReplies(e: Engine, r: (Engine, Reply))
    requires Replied(e, r)
    ensures Replied(e, Wrap(r))
  {
  }

  lemma StageReplies(e: Engine, client: nat, block: Block, dst: nat, dstOffset: nat)
    requires dst in e.mem.buffers
    ensures Replied(e, ReadToHbm(e, client, block, dst, dstOffset))
  {
  }

  lemma WorkerIo(e: Engine, id: nat)
    requires Inv(e) && id in e.work.workers
    ensures e.work.workers[id].io in e.mem.ios && e.mem.ios[e.work.workers[id].io].refs == 1
  {
    HeldReferences(e.mem, e.work, WorkerAt(id), Hold(e.work.workers[id].buffer, Some(e.work.workers[id].io)));
  }

  /** Staging is answered exactly like this; what it moves is `SimDirect.StagingDelivers`. */
  predicate StagingAnswered(e: Engine, client: nat, block: Block, dst: nat, dstOffset: nat, status: Status)
    requires dst in e.mem.buffers
  {
    var b := e.mem.buffers[dst];
    status == if && block.client == client && b.owner == client && Inside(|b.bytes|, dstOffset, |block.payload|)
                 && (b.kind == SimHbm || b.kind == AscendHbm || b.kind == HcclComm) then Ok else InvalidArgument
  }

  /** A direct read is answered like the transfer it makes: a communicator that cannot carry it
      is reported by the IO, a transfer that is not in order is an invalid argument. */
  predicate DirectAnswered(c: Client, client: nat, p: Plan, buffer: Buffer, offset: nat, status: Status) {
    status == if || !c.attached || c.size != 2
                 || TransferAdmitted(c, client, HcommPayload, buffer, offset, p.bytes, UInt8, p.peer)
              then Ok else InvalidArgument
  }

  /** How a read of a plan is answered. */
  lemma ReadDecided(e: Engine, client: nat, id: nat)
    requires Inv(e) && Legal(e, ERead(client, id))
    ensures var p, status := e.plans[id], Read(e, client, id).1.status;
            if p.client != client then status == InvalidArgument
            else if p.path == HostStaging then
              && p.block.Some? && p.block.value in e.blocks && p.dst.Some? && p.dst.value in e.mem.buffers
              && StagingAnswered(e, client, e.blocks[p.block.value], p.dst.value, p.dstOffset, status)
            else if p.path != SimDirect then SaysUnsupported(e, Read(e, client, id).0, Read(e, client, id).1)
            else if p.role == SourceSend then
              && p.block.Some? && p.block.value in e.blocks
              && DirectAnswered(e.clients[client], client, p,
                                Buffer(client, e.blocks[p.block.value].payload, SimHbm, 0), 0, status)
            else
              && p.dst.Some? && p.dst.value in e.mem.buffers
              && DirectAnswered(e.clients[client], client, p, e.mem.buffers[p.dst.value], p.dstOffset, status)
  {
    var p := e.plans[id];
    var r := Read(e, client, id);
    assert PlanValid(e.work.windows, p);
    if p.client == client && p.path == HostStaging {
      assert r == Wrap(ReadToHbm(e, client, e.blocks[p.block.value], p.dst.value, p.dstOffset));
      StagingStatus(e, client, e.blocks[p.block.value], p.dst.value, p.dstOffset);
    } else if p.client == client && p.path == SimDirect && p.role == SourceSend {
      var b := Buffer(client, e.blocks[p.block.value].payload, SimHbm, 0);
      assert r == Wrap(SubmitTransfer(e, client, HcommPayload, SendRole, b, 0, 0, p.bytes, UInt8, p.peer));
      TransferStatus(e, client, SendRole, b, 0, 0, p.bytes, p.peer);
    } else if p.client == client && p.path == SimDirect {
      TargetAlive(e, id);
      var dst := p.dst.value;
      assert r == Wrap(SubmitTransfer(e, client, HcommPayload, RecvRole, e.mem.buffers[dst], dst, p.dstOffset, p.bytes,
                                      UInt8, p.peer));
      TransferStatus(e, client, RecvRole, e.mem.buffers[dst], dst, p.dstOffset, p.bytes, p.peer);
    }
  }

  lemma StagingStatus(e: Engine, client: nat, block: Block, dst: nat, dstOffset: nat)
    requires dst in e.mem.buffers
    ensures StagingAnswered(e, client, block, dst, dstOffset,
                            Wrap(ReadToHbm(e, client, block, dst, dstOffset)).1.status)
  {
  }

  lemma TransferStatus(
    e: Engine, client: nat, role: PairRole, buffer: Buffer, handle: nat, offset: nat, bytes: nat, peer: nat)
    requires client in e.clients
    ensures var r := SubmitTransfer(e, client, HcommPayload, role, buffer, handle, offset, bytes, UInt8, peer);
            var c := e.clients[client];
            && Wrap(r).1.status == r.1.status
            && r.1.status == if || !c.attached || c.size != 2
                                || TransferAdmitted(c, client, HcommPayload, buffer, offset, bytes, UInt8, peer)
                             then Ok else InvalidArgument
  {
    TransferAdmittedExactly(e.clients[client], client, HcommPayload, role, buffer, offset, bytes, UInt8, peer);
  }

  lemma ReadAnswers(e: Engine, client: nat, id: nat)
    requires Inv(e) && Legal(e, ERead(client, id))
    ensures Replied(e, Read(e, client, id))
  {
    var p := e.plans[id];
    var r := Read(e, client, id);
    if p.client == client && p.path == HostStaging {
      assert PlanValid(e.work.windows, p);
      var staged := ReadToHbm(e, client, e.blocks[p.block.value], p.dst.value, p.dstOffset);
      assert r == Wrap(staged);
      StageReplies(e, client, e.blocks[p.block.value], p.dst.value, p.dstOffset);
      WrapReplies(e, staged);
    } else if p.client == client && p.path == SimDirect && p.role == SourceSend {
      var b := Buffer(client, e.blocks[p.block.value].payload, SimHbm, 0);
      var sent := SubmitTransfer(e, client, HcommPayload, SendRole, b, 0, 0, p.bytes, UInt8, p.peer);
      assert r == Wrap(sent);
      TransferAnswers(e, client, HcommPayload, SendRole, b, 0, 0, p.bytes, UInt8, p.peer);
      WrapReplies(e, sent);
    } else if p.client == client && p.path == SimDirect && p.role == TargetRecv {
      TargetAlive(e, id);
      var b := p.dst.value;
      var got := SubmitTransfer(e, client, HcommPayload, RecvRole, e.mem.buffers[b], b, p.dstOffset, p.bytes, UInt8,
                                p.peer);
      assert r == Wrap(got);
      TransferAnswers(e, client, HcommPayload, RecvRole, e.mem.buffers[b], b, p.dstOffset, p.bytes, UInt8, p.peer);
      WrapReplies(e, got);
    }
  }

  /** What a caller who has made a plan can count on. */
  predicate PlanPinned(e: Engine, id: nat, o: DirectOptions)
    requires id in e.plans
  {
    var p := e.plans[id];
    && (o.requireDirect || !o.allowStaging ==> p.path != HostStaging)
    && (o.window.Some? ==>
          && o.window.value in e.work.windows && ReleaseWindow(e, o.window.value) == (e, Reply(InvalidArgument, None))
          && e.work.windows[o.window.value].buffer in e.mem.buffers
          && FreeBuffer(e, e.work.windows[o.window.value].buffer) == (e, Reply(InvalidArgument, None)))
    && (p.path == SimDirect && p.role == TargetRecv ==>
          && p.dst.Some? && p.dst.value in e.mem.buffers && p.dstOffset + p.bytes <= |e.mem.buffers[p.dst.value].bytes|)
  }

  lemma CreatedIsPinned(e: Engine, client: nat, block: Option<nat>, dst: Option<nat>, dstOffset: nat, o: DirectOptions)
    requires Inv(e) && Legal(e, ECreatePlan(client, block, dst, dstOffset, o))
    ensures var r := CreatePlan(e, client, block, dst, dstOffset, o);
            if r.1.status == Ok
              then r.1.handle == Some(e.mem.next) && e.mem.next in r.0.plans && PlanPinned(r.0, e.mem.next, o)
            else r.0 == e
  {
    var r := CreatePlan(e, client, block, dst, dstOffset, o);
    match CheckPlan(e, client, block, dst, dstOffset, o)
    case Refused(status) =>
      RefusedStatus(e, client, block, dst, dstOffset, o);
    case Accepted(bytes) =>
      CreatePlanInv(e, client, block, dst, dstOffset, o);
      PlanIsPinned(r.0, e.mem.next, o);
  }

  lemma RefusedStatus(e: Engine, client: nat, block: Option<nat>, dst: Option<nat>, dstOffset: nat, o: DirectOptions)
    requires Legal(e, ECreatePlan(client, block, dst, dstOffset, o))
    requires CheckPlan(e, client, block, dst, dstOffset, o).Refused?
    ensures CheckPlan(e, client, block, dst, dstOffset, o).status != Ok
  {
  }

  lemma PlanIsPinned(e: Engine, id: nat, o: DirectOptions)
    requires Inv(e) && id in e.plans && e.plans[id].window == o.window
    requires e.plans[id].requireDirect == o.requireDirect && e.plans[id].allowStaging == o.allowStaging
    ensures PlanPinned(e, id, o)
  {
    WindowPinned(e, id);
  }

  // ---------------------------------------------------------------------------
  // Whole lives

  /** One call, or one step of one of the library's threads, if it is legal now. */
  method Perform(lib: Library, f: Reducer, ev: Event) returns (done: bool)
    requires lib.Valid()
    modifies lib
    ensures lib.Valid() && done == Legal(old(lib.State()), ev)
    ensures lib.State() == if done then Step(f, old(lib.State()), ev).0 else old(lib.State())
  {
    done := Legal(lib.State(), ev);
    if !done {
      return;
    }
    if BasicEvent(ev) {
      PerformBasic(lib, f, ev);
    } else if Submission(ev) {
      PerformSubmission(lib, f, ev);
    } else if ThreadEvent(ev) {
      PerformThread(lib, f, ev);
    } else {
      PerformStorage(lib, f, ev);
    }
  }

  method PerformBasic(lib: Library, f: Reducer, ev: Event)
    requires lib.Valid() && Legal(lib.State(), ev) && BasicEvent(ev)
    modifies lib
    ensures lib.Valid() && lib.State() == Step(f, old(lib.State()), ev).0
  {
    match ev {
      case EOpen(client) =>
        var _ := lib.OpenClient(client);
      case EAttach(client, comm, rank, size) =>
        var _ := lib.AttachSimComm(client, comm, rank, size);
      case ENewBuffer(client, bytes, kind) =>
        var _ := lib.CreateBuffer(client, bytes, kind);
      case EFreeBuffer(b) =>
        var _ := lib.ReleaseUnusedBuffer(b);
      case EWrite(b, offset, data) =>
        lib.WriteBuffer(b, offset, data);
      case EFreeIo(io) =>
        var _ := lib.ReleaseIo(io);
    }
  }

  method PerformSubmission(lib: Library, f: Reducer, ev: Event)
    requires lib.Valid() && Legal(lib.State(), ev) && Submission(ev)
    modifies lib
    ensures lib.Valid() && lib.State() == Step(f, old(lib.State()), ev).0
  {
    match ev {
      case ECollective(client, kind, dst, dstOffset, src, srcOffset, count, dtype, op) =>
        var _ := lib.SubmitSimCollective(f, client, kind, dst, dstOffset, src, srcOffset, count, dtype, op);
      case ETransfer(client, table, role, b, offset, count, dtype, peer) =>
        var _ := lib.SubmitSimTransfer(client, table, role, b, offset, count, dtype, peer);
    }
  }

  method PerformStorage(lib: Library, f: Reducer, ev: Event)
    requires lib.Valid() && Legal(lib.State(), ev) && !BasicEvent(ev) && !Submission(ev) && !ThreadEvent(ev)
    modifies lib
    ensures lib.Valid() && lib.State() == Step(f, old(lib.State()), ev).0
  {
    match ev {
      case EPrepare(client, payload) =>
        var _ := lib.PrepareBlock(client, payload);
      case EFreeBlock(b) =>
        lib.ReleaseBlock(b);
      case ERegister(client, b, offset, len) =>
        var _ := lib.RegisterTargetMemory(client, b, offset, len);
      case EUnregister(w) =>
        var _ := lib.ReleaseTargetWindow(w);
      case ECreatePlan(client, block, dst, dstOffset, o) =>
        var _ := lib.CreateDirectPlan(client, block, dst, dstOffset, o);
      case EFreePlan(p) =>
        var _ := lib.ReleaseDirectPlan(p);
      case ERead(client, p) =>
        var _ := lib.ReadStorageToHbm(client, p);
    }
  }

  method PerformThread(lib: Library, f: Reducer, ev: Event)
    requires lib.Valid() && Legal(lib.State(), ev) && ThreadEvent(ev)
    modifies lib
    ensures lib.Valid() && lib.State() == Step(f, old(lib.State()), ev).0
  {
    match ev {
      case EForward(t) =>
        lib.CompleteFromInner(t);
      case EStartWorker(b) =>
        var _ := lib.StartRoceWorker(b);
      case EWorkerReleases(k) =>
        lib.WorkerReleasesBuffer(k);
      case EWorkerFinishes(k, status, bytes, checksum) =>
        lib.WorkerCompletes(k, status, bytes, checksum);
    }
  }

  /** Any sequence of calls and thread steps on a new library, each made if it is legal then:
      the object goes through a run of the state machine, so it ends balanced and without
      having touched anything released. */
  method LifeOf(f: Reducer, events: seq<Event>) returns (lib: Library, ghost taken: seq<Event>)
    ensures fresh(lib) && lib.Valid() && Run(f, EMPTY, taken, lib.State()) && !lib.fault
    ensures forall b :: b in lib.buffers ==> lib.buffers[b].pending == |BufferHolders(lib.Waiting(), b)|
    ensures forall io :: io in lib.ios ==> (lib.ios[io].refs == 1 <==> HeldOnce(lib.Waiting(), io))
  {
    lib := new Library();
    taken := [];
    for i := 0 to |events|
      invariant fresh(lib) && lib.Valid() && Run(f, EMPTY, taken, lib.State())
    {
      ghost var before := lib.State();
      var done := Perform(lib, f, events[i]);
      if done {
        RunThen(f, taken, before, events[i], lib.State());
        taken := taken + [events[i]];
      }
    }
    ReferencesBalance(f, taken, lib.State());
  }

  lemma RunThen(f: Reducer, taken: seq<Event>, e: Engine, ev: Event, e': Engine)
    requires Run(f, EMPTY, taken, e) && Legal(e, ev) && e' == Step(f, e, ev).0
    ensures Run(f, EMPTY, taken + [ev], e')
  {
    assert [ev][1..] == [];
    assert Run(f, e', [ev][1..], e');
    assert Run(f, e, [ev], e');
    RunAppend(f, EMPTY, taken, e, [ev], e');
  }
}
