/** The state of the simulated communication engine: clients, buffers, IO handles, and the
    global tables that hold submissions until their peers arrive. Handles are numbers; a
    handle that is not in its map has been released. */
module SimState {
  import opened Common

  datatype Status = Ok | Pending | InvalidArgument | Unsupported | BackendError

  datatype DataType =
    | Int8 | UInt8 | Int16 | UInt16 | Int32 | UInt32 | Int64 | UInt64
    | Fp16 | Bfp16 | Fp32 | Fp64 | UnknownType

  datatype ReduceOp = ReduceSum | ReduceProd | ReduceMax | ReduceMin | UnknownOp

  datatype BufferKind = HostMemory | SimHbm | SimHcclComm | AscendHbm | HcclComm

  predicate IsSim(kind: BufferKind) { kind == SimHbm || kind == SimHcclComm }

  function Width(t: DataType): nat {
    match t
    case Int8 => 1
    case UInt8 => 1
    case Int16 => 2
    case UInt16 => 2
    case Fp16 => 2
    case Bfp16 => 2
    case Int32 => 4
    case UInt32 => 4
    case Fp32 => 4
    case Int64 => 8
    case UInt64 => 8
    case Fp64 => 8
    case UnknownType => 0
  }

  /** The byte count of `count` elements; None for an empty, unknown or overflowing request. */
  function CheckedBytes(count: nat, t: DataType): (r: Option<nat>)
    ensures r.Some? <==> count > 0 && Width(t) > 0 && count * Width(t) <= SIZE_MAX
    ensures r.Some? ==> r.value == count * Width(t)
  {
    var w := Width(t);
    if count == 0 || w == 0 then None
    else
      FitsByQuotient(count, w, SIZE_MAX);
      if count > SIZE_MAX / w then None else Some(count * w)
  }

  function CheckedMul(a: nat, b: nat): (r: Option<nat>)
    ensures r.Some? <==> a * b <= SIZE_MAX
    ensures r.Some? ==> r.value == a * b
  {
    if b == 0 then Some(0)
    else
      FitsByQuotient(a, b, SIZE_MAX);
      if a > SIZE_MAX / b then None else Some(a * b)
  }

  lemma FitsByQuotient(a: nat, b: nat, limit: nat)
    requires b > 0
    ensures a <= limit / b <==> a * b <= limit
  {
    var q := limit / b;
    assert limit == b * q + limit % b;
    if a <= q {
      assert a * b <= q * b;
    } else {
      assert a * b >= (q + 1) * b;
    }
  }

  // ---------------------------------------------------------------------------
  // Memory: buffers and IO handles with their reference counts

  datatype Buffer = Buffer(owner: nat, bytes: Bytes, kind: BufferKind, pending: int)

  datatype Io = Io(done: bool, status: Status, bytes: nat, checksum: bv32, refs: int)

  /** `next` is the next unused handle. `fault` records that the engine touched a released
      handle, wrote outside a buffer or dropped a reference that was not held. */
  datatype Mem = Mem(buffers: map<nat, Buffer>, ios: map<nat, Io>, next: nat, fault: bool)

  function DoneIo(status: Status): Io { Io(true, status, 0, 0, 0) }

  function Fault(m: Mem): Mem { m.(fault := true) }

  predicate ValidRange(m: Mem, b: nat, offset: nat, len: nat) {
    b in m.buffers && offset <= |m.buffers[b].bytes| && len <= |m.buffers[b].bytes| - offset
  }

  function RetainBuffer(m: Mem, b: nat): Mem {
    if b in m.buffers then m.(buffers := m.buffers[b := m.buffers[b].(pending := m.buffers[b].pending + 1)])
    else Fault(m)
  }

  function ReleaseBuffer(m: Mem, b: nat): Mem {
    if b in m.buffers && m.buffers[b].pending > 0
    then m.(buffers := m.buffers[b := m.buffers[b].(pending := m.buffers[b].pending - 1)])
    else Fault(m)
  }

  function Store(m: Mem, b: nat, offset: nat, data: Bytes): Mem {
    if ValidRange(m, b, offset, |data|)
    then m.(buffers := m.buffers[b := m.buffers[b].(bytes := Overwrite(m.buffers[b].bytes, offset, data))])
    else Fault(m)
  }

  /** The bytes a submission snapshots from its source. */
  function Load(m: Mem, b: nat, offset: nat, len: nat): Bytes {
    if ValidRange(m, b, offset, len) then m.buffers[b].bytes[offset..offset + len] else []
  }

  /** A new IO handle, numbered `m.next`. */
  function NewIo(m: Mem, io: Io): Mem {
    m.(ios := m.ios[m.next := io], next := m.next + 1)
  }

  /** Completes an IO and drops the reference of the slot that held it. */
  function FinishIo(m: Mem, io: nat, status: Status, bytes: nat, checksum: bv32): Mem {
    if io in m.ios && m.ios[io].refs > 0
    then m.(ios := m.ios[io := Io(true, status, bytes, checksum, m.ios[io].refs - 1)])
    else Fault(m)
  }

  // ---------------------------------------------------------------------------
  // Work: everything that waits for somebody else

  datatype CollKind = AllReduce | AllGather

  datatype CollKey = CollKey(comm: string, size: nat, index: nat, kind: CollKind)
  datatype CollParams = CollParams(count: nat, dtype: DataType, op: ReduceOp, inBytes: nat, outBytes: nat)
  datatype CollSlot = CollSlot(payload: Bytes, dst: nat, offset: nat, io: nat)
  datatype PendingColl = PendingColl(params: CollParams, slots: seq<Option<CollSlot>>, arrivals: nat)

  /** The two pair tables: point-to-point operations and HCOMM payload copies. */
  datatype PairTable = P2p | HcommPayload
  datatype PairRole = SendRole | RecvRole

  datatype PairKey = PairKey(table: PairTable, comm: string, size: nat, src: nat, dst: nat, index: nat)
  datatype PairMeta = PairMeta(count: nat, dtype: DataType, bytes: nat)
  datatype SendHalf = SendHalf(payload: Bytes, io: nat)
  datatype RecvHalf = RecvHalf(dst: nat, offset: nat, io: nat)
  datatype PendingPair = PendingPair(meta: Option<PairMeta>, send: Option<SendHalf>, recv: Option<RecvHalf>)

  datatype Window = Window(client: nat, buffer: nat, offset: nat, len: nat, planRefs: int)

  /** A thread that forwards the outcome of `inner` to `wrapper`. */
  datatype Task = Task(wrapper: nat, inner: nat)
  /** A RoCE request worker; it drops its buffer before it completes its IO. */
  datatype Worker = Worker(buffer: Option<nat>, io: nat)

  datatype Work = Work(
    colls: map<CollKey, PendingColl>,
    pairs: map<PairKey, PendingPair>,
    windows: map<nat, Window>,
    tasks: map<nat, Task>,
    workers: map<nat, Worker>)

  // ---------------------------------------------------------------------------
  // The engine

  datatype Counter = CollCounter(kind: CollKind) | PairCounter(table: PairTable, role: PairRole)

  datatype Client = Client(attached: bool, comm: string, rank: nat, size: nat, counters: map<Counter, nat>)

  function Seq(client: Client, c: Counter): nat {
    if c in client.counters then client.counters[c] else 0
  }

  datatype Block = Block(client: nat, payload: Bytes)

  datatype Path = AutoPath | HostStaging | SimDirect | OtherPath
  datatype PlanRole = AutoRole | SourceSend | TargetRecv | StagingRole | OtherRole

  datatype Plan = Plan(
    client: nat, block: Option<nat>, dst: Option<nat>, window: Option<nat>, dstOffset: nat,
    path: Path, role: PlanRole, peer: nat, requireDirect: bool, allowStaging: bool, bytes: nat)

  datatype Engine = Engine(
    clients: map<nat, Client>, mem: Mem, work: Work, blocks: map<nat, Block>, plans: map<nat, Plan>)

  /** What a call returns: its status and, unless it was rejected, an IO or object handle. */
  datatype Reply = Reply(status: Status, handle: Option<nat>)

  const EMPTY := Engine(map[], Mem(map[], map[], 0, false), Work(map[], map[], map[], map[], map[]), map[], map[])
}
