/** The simulated engine as a state machine: one event for each call of the client library
    and for each step of its worker threads. */
module SimEngine {
  import opened Common
  import opened SimState
  import opened SimCollective
  import opened SimPair

  function CoreOf(e: Engine): Core { Core(e.mem, e.work) }

  function WithCore(e: Engine, c: Core): Engine { e.(mem := c.mem, work := c.work) }

  /** The call returns a handle to an IO that is already complete. */
  function Completed(e: Engine, status: Status, bytes: nat, checksum: bv32): (Engine, Reply) {
    (e.(mem := NewIo(e.mem, Io(true, status, bytes, checksum, 0))), Reply(Ok, Some(e.mem.next)))
  }

  function Rejected(e: Engine, status: Status): (Engine, Reply) { (e, Reply(status, None)) }

  function Advance(e: Engine, client: nat, counter: Counter): Engine
    requires client in e.clients
  {
    var c := e.clients[client];
    e.(clients := e.clients[client := c.(counters := c.counters[counter := Seq(c, counter) + 1])])
  }

  // ---------------------------------------------------------------------------
  // Submissions

  function OutBytes(kind: CollKind, inBytes: nat, size: nat): Option<nat> {
    if kind == AllGather then CheckedMul(inBytes, size) else Some(inBytes)
  }

  /** What the checks of a submission decide: reject the call, answer it with an IO that is
      already complete, or take it to its table. */
  datatype Decision<T> = Reject(status: Status) | Complete(status: Status) | Join(request: T)

  datatype CollRequest = CollRequest(key: CollKey, params: CollParams, payload: Bytes)

  function DecideCollective(
    c: Client, m: Mem, kind: CollKind, dst: nat, dstOffset: nat, src: nat, srcOffset: nat,
    count: nat, dtype: DataType, op: ReduceOp
  ): Decision<CollRequest>
    requires dst in m.buffers && src in m.buffers
  {
    if !c.attached || c.size == 0 then Complete(Unsupported)
    else if kind == AllReduce && op == UnknownOp then Reject(InvalidArgument)
    else
      match CheckedBytes(count, dtype)
      case None => Reject(InvalidArgument)
      case Some(inBytes) =>
        match OutBytes(kind, inBytes, c.size)
        case None => Reject(InvalidArgument)
        case Some(outBytes) =>
          DecideSized(c, m, kind, dst, dstOffset, src, srcOffset, CollParams(count, dtype, op, inBytes, outBytes))
  }

  /** The checks that remain once the sizes are known. */
  function DecideSized(
    c: Client, m: Mem, kind: CollKind, dst: nat, dstOffset: nat, src: nat, srcOffset: nat, p: CollParams
  ): Decision<CollRequest>
    requires dst in m.buffers && src in m.buffers
  {
    if !ValidRange(m, src, srcOffset, p.inBytes) || !ValidRange(m, dst, dstOffset, p.outBytes)
      then Reject(InvalidArgument)
    else if !IsSim(m.buffers[src].kind) || !IsSim(m.buffers[dst].kind) then Complete(Unsupported)
    else Join(CollRequest(CollKey(c.comm, c.size, Seq(c, CollCounter(kind)), kind), p,
                          Load(m, src, srcOffset, p.inBytes)))
  }

  function SubmitCollective(
    f: Reducer, e: Engine, client: nat, kind: CollKind, dst: nat, dstOffset: nat, src: nat, srcOffset: nat,
    count: nat, dtype: DataType, op: ReduceOp
  ): (Engine, Reply)
    requires client in e.clients && dst in e.mem.buffers && src in e.mem.buffers
  {
    match DecideCollective(e.clients[client], e.mem, kind, dst, dstOffset, src, srcOffset, count, dtype, op)
    case Reject(status) => Rejected(e, status)
    case Complete(status) => Completed(e, status, 0, 0)
    case Join(q) => JoinCollective(f, e, client, q, dst, dstOffset)
  }

  /** The submission takes the client's next number and goes to the table. */
  function JoinCollective(f: Reducer, e: Engine, client: nat, q: CollRequest, dst: nat, dstOffset: nat): (Engine, Reply)
    requires client in e.clients
  {
    var core := Arrive(f, CoreOf(e), q.key, q.params, e.clients[client].rank, q.payload, dst, dstOffset);
    (WithCore(Advance(e, client, CollCounter(q.key.kind)), core), Reply(Ok, Some(e.mem.next)))
  }

  function TransferKey(c: Client, table: PairTable, role: PairRole, peer: nat): PairKey {
    if role == SendRole then PairKey(table, c.comm, c.size, c.rank, peer, Seq(c, PairCounter(table, role)))
    else PairKey(table, c.comm, c.size, peer, c.rank, Seq(c, PairCounter(table, role)))
  }

  predicate KindFits(table: PairTable, kind: BufferKind) {
    if table == P2p then IsSim(kind) else kind == SimHbm
  }

  predicate Fits(buffer: Buffer, offset: nat, len: nat) {
    offset <= |buffer.bytes| && len <= |buffer.bytes| - offset
  }

  datatype PairRequest = PairRequest(key: PairKey, meta: PairMeta, payload: Bytes)

  function DecideTransfer(
    c: Client, client: nat, table: PairTable, role: PairRole, buffer: Buffer, offset: nat,
    count: nat, dtype: DataType, peer: nat
  ): Decision<PairRequest>
  {
    if !c.attached || c.size == 0 then Complete(Unsupported)
    else if table == HcommPayload && c.size != 2 then Complete(Unsupported)
    else if peer >= c.size || peer == c.rank then Reject(InvalidArgument)
    else
      match CheckedBytes(count, dtype)
      case None => Reject(InvalidArgument)
      case Some(bytes) =>
        if !Fits(buffer, offset, bytes) || buffer.owner != client || !KindFits(table, buffer.kind)
          then Reject(InvalidArgument)
        else
          Join(PairRequest(TransferKey(c, table, role, peer), PairMeta(count, dtype, bytes),
                           buffer.bytes[offset..offset + bytes]))
  }

  /** A send or receive on `buffer`; a receive names it by `handle`. */
  function SubmitTransfer(
    e: Engine, client: nat, table: PairTable, role: PairRole, buffer: Buffer, handle: nat, offset: nat,
    count: nat, dtype: DataType, peer: nat
  ): (Engine, Reply)
    requires client in e.clients
  {
    match DecideTransfer(e.clients[client], client, table, role, buffer, offset, count, dtype, peer)
    case Reject(status) => Rejected(e, status)
    case Complete(status) => Completed(e, status, 0, 0)
    case Join(q) => JoinTransfer(e, client, role, q, handle, offset)
  }

  function JoinTransfer(
    e: Engine, client: nat, role: PairRole, q: PairRequest, handle: nat, offset: nat
  ): (Engine, Reply)
    requires client in e.clients
  {
    var core := Meet(CoreOf(e), q.key, role, q.meta, q.payload, handle, offset);
    (WithCore(Advance(e, client, PairCounter(q.key.table, role)), core), Reply(Ok, Some(e.mem.next)))
  }

  // ---------------------------------------------------------------------------
  // Clients, buffers and IOs

  /** A new client belongs to no communicator. */
  function Open(e: Engine, client: nat): (Engine, Reply) {
    (e.(clients := e.clients[client := Client(false, "", 0, 0, map[])]), Reply(Ok, None))
  }

  function Attach(e: Engine, client: nat, comm: string, rank: nat, size: nat): (Engine, Reply) {
    if comm == "" || size == 0 || rank >= size then Rejected(e, InvalidArgument)
    else (e.(clients := e.clients[client := Client(true, comm, rank, size, map[])]), Reply(Ok, None))
  }

  function NewBuffer(e: Engine, client: nat, bytes: Bytes, kind: BufferKind): (Engine, Reply) {
    if bytes == [] then Rejected(e, InvalidArgument)
    else
      var m := e.mem;
      (e.(mem := m.(buffers := m.buffers[m.next := Buffer(client, bytes, kind, 0)], next := m.next + 1)),
       Reply(Ok, Some(m.next)))
  }

  function FreeBuffer(e: Engine, b: nat): (Engine, Reply)
    requires b in e.mem.buffers
  {
    if e.mem.buffers[b].pending != 0 then Rejected(e, InvalidArgument)
    else (e.(mem := e.mem.(buffers := e.mem.buffers - {b})), Reply(Ok, None))
  }

  function FreeIo(e: Engine, io: nat): (Engine, Reply)
    requires io in e.mem.ios
  {
    if e.mem.ios[io].refs != 0 then Rejected(e, InvalidArgument)
    else (e.(mem := e.mem.(ios := e.mem.ios - {io})), Reply(Ok, None))
  }

  // ---------------------------------------------------------------------------
  // Storage: blocks, target windows, plans

  function Bump(m: Mem): Mem { m.(next := m.next + 1) }

  function Prepare(e: Engine, client: nat, payload: Bytes): (Engine, Reply) {
    (e.(mem := Bump(e.mem), blocks := e.blocks[e.mem.next := Block(client, payload)]), Reply(Ok, Some(e.mem.next)))
  }

  function RegisterWindow(e: Engine, client: nat, b: nat, offset: nat, len: nat): (Engine, Reply)
    requires b in e.mem.buffers
  {
    if len == 0 || e.mem.buffers[b].owner != client || e.mem.buffers[b].kind != SimHbm ||
      !ValidRange(e.mem, b, offset, len)
    then Rejected(e, InvalidArgument)
    else
      var id := e.mem.next;
      (e.(mem := Bump(RetainBuffer(e.mem, b)),
          work := e.work.(windows := e.work.windows[id := Window(client, b, offset, len, 0)])),
       Reply(Ok, Some(id)))
  }

  function ReleaseWindow(e: Engine, id: nat): (Engine, Reply)
    requires id in e.work.windows
  {
    var w := e.work.windows[id];
    if w.planRefs != 0 then Rejected(e, InvalidArgument)
    else
      (e.(mem := ReleaseBuffer(e.mem, w.buffer), work := e.work.(windows := e.work.windows - {id})), Reply(Ok, None))
  }

  datatype DirectOptions = DirectOptions(
    path: Path, role: PlanRole, window: Option<nat>, peer: nat, len: nat, requireDirect: bool, allowStaging: bool)

  /** The path and role a plan gets from its options. */
  function ChosenPath(o: DirectOptions, attached: bool): Path {
    var path := if o.path != AutoPath then o.path
                else if attached || o.requireDirect then SimDirect else HostStaging;
    if o.role == StagingRole then HostStaging else path
  }

  function ChosenRole(o: DirectOptions, attached: bool, hasBlock: bool): PlanRole {
    if o.role != AutoRole then o.role
    else if ChosenPath(o, attached) == HostStaging then StagingRole
    else if hasBlock then SourceSend else TargetRecv
  }

  datatype PlanOutcome = Refused(status: Status) | Accepted(bytes: nat)

  function CheckSource(e: Engine, client: nat, block: Option<nat>, dst: Option<nat>, len: nat): PlanOutcome
    requires block.Some? ==> block.value in e.blocks
  {
    if block == None || e.blocks[block.value].client != client || dst.Some? then Refused(InvalidArgument)
    else
      var have := |e.blocks[block.value].payload|;
      var bytes := if len == 0 then have else len;
      if bytes == 0 || bytes > have then Refused(InvalidArgument) else Accepted(bytes)
  }

  function CheckTarget(
    e: Engine, client: nat, block: Option<nat>, dst: Option<nat>, dstOffset: nat, len: nat,
    direct: bool, window: Option<nat>
  ): PlanOutcome
    requires dst.Some? ==> dst.value in e.mem.buffers
    requires window.Some? ==> window.value in e.work.windows
  {
    if dst == None || e.mem.buffers[dst.value].owner != client || block.Some? then Refused(InvalidArgument)
    else
      var have := |e.mem.buffers[dst.value].bytes|;
      if len == 0 && dstOffset > have then Refused(InvalidArgument)
      else
        var bytes := if len == 0 then have - dstOffset else len;
        if bytes == 0 || !ValidRange(e.mem, dst.value, dstOffset, bytes) then Refused(InvalidArgument)
        else if direct then
          if window == None then Refused(InvalidArgument)
          else
            var w := e.work.windows[window.value];
            if w.client != client || w.buffer != dst.value || dstOffset < w.offset || bytes > w.len ||
               dstOffset - w.offset > w.len - bytes
            then Refused(InvalidArgument)
            else Accepted(bytes)
        else Accepted(bytes)
  }

  function CheckStaging(
    e: Engine, client: nat, block: Option<nat>, dst: Option<nat>, dstOffset: nat, len: nat
  ): PlanOutcome
    requires block.Some? ==> block.value in e.blocks
    requires dst.Some? ==> dst.value in e.mem.buffers
  {
    if block == None || dst == None || e.blocks[block.value].client != client ||
      e.mem.buffers[dst.value].owner != client
    then Refused(InvalidArgument)
    else
      var have := |e.blocks[block.value].payload|;
      var bytes := if len == 0 then have else len;
      if bytes == 0 || bytes > have || !ValidRange(e.mem, dst.value, dstOffset, bytes) then Refused(InvalidArgument)
      else Accepted(bytes)
  }

  /** Whether the options make a plan, and for how many bytes. */
  function CheckPlan(
    e: Engine, client: nat, block: Option<nat>, dst: Option<nat>, dstOffset: nat, o: DirectOptions
  ): PlanOutcome
    requires client in e.clients
    requires block.Some? ==> block.value in e.blocks
    requires dst.Some? ==> dst.value in e.mem.buffers
    requires o.window.Some? ==> o.window.value in e.work.windows
  {
    var c := e.clients[client];
    var path, role := ChosenPath(o, c.attached), ChosenRole(o, c.attached, block.Some?);
    if path == HostStaging && role != StagingRole then Refused(InvalidArgument)
    else if o.requireDirect && path != SimDirect then Refused(Unsupported)
    else if !o.allowStaging && path == HostStaging then Refused(Unsupported)
    else
      var checked := match role
        case SourceSend => CheckSource(e, client, block, dst, o.len)
        case TargetRecv => CheckTarget(e, client, block, dst, dstOffset, o.len, path == SimDirect, o.window)
        case StagingRole => CheckStaging(e, client, block, dst, dstOffset, o.len)
        case _ => Refused(InvalidArgument);
      if checked.Refused? || path != SimDirect then checked
      else if !c.attached then Refused(Unsupported)
      else if c.size != 2 || o.peer >= c.size || o.peer == c.rank then Refused(InvalidArgument)
      else if role == TargetRecv && dst.Some? && e.mem.buffers[dst.value].kind != SimHbm then Refused(InvalidArgument)
      else checked
  }

  function CreatePlan(
    e: Engine, client: nat, block: Option<nat>, dst: Option<nat>, dstOffset: nat, o: DirectOptions
  ): (Engine, Reply)
    requires client in e.clients
    requires block.Some? ==> block.value in e.blocks
    requires dst.Some? ==> dst.value in e.mem.buffers
    requires o.window.Some? ==> o.window.value in e.work.windows
  {
    match CheckPlan(e, client, block, dst, dstOffset, o)
    case Refused(status) => Rejected(e, status)
    case Accepted(bytes) =>
      var attached := e.clients[client].attached;
      var plan := Plan(client, block, dst, o.window, dstOffset, ChosenPath(o, attached),
                       ChosenRole(o, attached, block.Some?), o.peer, o.requireDirect, o.allowStaging, bytes);
      (e.(mem := Bump(e.mem), work := MovePlanRefs(e.work, o.window, 1), plans := e.plans[e.mem.next := plan]),
       Reply(Ok, Some(e.mem.next)))
  }

  function MovePlanRefs(w: Work, window: Option<nat>, delta: int): Work
    requires window.Some? ==> window.value in w.windows
  {
    match window
    case None => w
    case Some(id) => w.(windows := w.windows[id := w.windows[id].(planRefs := w.windows[id].planRefs + delta)])
  }

  /** Releasing a plan whose window is gone would touch freed memory. */
  function FreePlan(e: Engine, id: nat): (Engine, Reply)
    requires id in e.plans
  {
    var p := e.plans[id];
    if p.window.Some? && p.window.value !in e.work.windows then (e.(mem := Fault(e.mem)), Reply(Ok, None))
    else (e.(work := MovePlanRefs(e.work, p.window, -1), plans := e.plans - {id}), Reply(Ok, None))
  }

  /** Host staging: the whole block is copied at once. */
  function ReadToHbm(e: Engine, client: nat, block: Block, dst: nat, dstOffset: nat): (Engine, Reply)
    requires dst in e.mem.buffers
  {
    var b := e.mem.buffers[dst];
    if block.client != client || b.owner != client || !ValidRange(e.mem, dst, dstOffset, |block.payload|)
    then Rejected(e, InvalidArgument)
    else if b.kind == SimHbm then
      Completed(e.(mem := Store(e.mem, dst, dstOffset, block.payload)), Ok, |block.payload|, Checksum32(block.payload))
    else if b.kind == AscendHbm || b.kind == HcclComm then Completed(e, Unsupported, 0, 0)
    else Rejected(e, InvalidArgument)
  }

  /** Wraps an IO that was just submitted: the caller sees a new IO, and a thread forwards
      the outcome of the inner one to it. */
  function Wrap(r: (Engine, Reply)): (Engine, Reply) {
    if r.1.status != Ok || r.1.handle == None then r
    else
      var e := r.0;
      var wrapper := e.mem.next;
      (e.(mem := NewIo(e.mem, PendingIo()),
          work := e.work.(tasks := e.work.tasks[wrapper := Task(wrapper, r.1.handle.value)])),
       Reply(Ok, Some(wrapper)))
  }

  predicate BlockLive(e: Engine, p: Plan) { p.block.Some? && p.block.value in e.blocks }

  predicate DstLive(e: Engine, p: Plan) { p.dst.Some? && p.dst.value in e.mem.buffers }

  /** The library touched something that was freed. */
  function Crashed(e: Engine): (Engine, Reply) { (e.(mem := Fault(e.mem)), Reply(Ok, None)) }

  /** A read follows the plan's handles to its block and its destination, alive or not. */
  function Read(e: Engine, client: nat, id: nat): (Engine, Reply)
    requires client in e.clients && id in e.plans
  {
    var p := e.plans[id];
    if p.client != client then Rejected(e, InvalidArgument)
    else if p.path == HostStaging then
      if p.requireDirect || !p.allowStaging then Completed(e, Unsupported, 0, 0)
      else if !BlockLive(e, p) || !DstLive(e, p) then Crashed(e)
      else Wrap(ReadToHbm(e, client, e.blocks[p.block.value], p.dst.value, p.dstOffset))
    else if p.path != SimDirect then Completed(e, Unsupported, 0, 0)
    else if p.role == SourceSend then
      if !BlockLive(e, p) then Crashed(e)
      else
        var payload := e.blocks[p.block.value].payload;
        Wrap(SubmitTransfer(e, client, HcommPayload, SendRole, Buffer(client, payload, SimHbm, 0), 0, 0, p.bytes,
                            UInt8, p.peer))
    else if p.role == TargetRecv then
      if !DstLive(e, p) then Crashed(e)
      else
        Wrap(SubmitTransfer(e, client, HcommPayload, RecvRole, e.mem.buffers[p.dst.value], p.dst.value, p.dstOffset,
                            p.bytes, UInt8, p.peer))
    else Rejected(e, InvalidArgument)
  }

  /** What a caller who reads a plan must have kept alive: the block of a plan that sends or
      stages, and the destination of a plan that stages. */
  predicate Readable(e: Engine, client: nat, p: Plan) {
    p.client == client ==>
      && (p.path == HostStaging || (p.path == SimDirect && p.role == SourceSend) ==> BlockLive(e, p))
      && (p.path == HostStaging ==> DstLive(e, p))
  }

  /** The forwarding thread: runs once the inner IO is done, frees it and completes the wrapper. */
  function Forward(e: Engine, id: nat): Engine
    requires id in e.work.tasks
  {
    var t := e.work.tasks[id];
    if t.inner !in e.mem.ios || !e.mem.ios[t.inner].done then e.(mem := Fault(e.mem))
    else
      var io := e.mem.ios[t.inner];
      var m1 := e.mem.(ios := e.mem.ios - {t.inner});
      e.(mem := FinishIo(m1, t.wrapper, io.status, io.bytes, io.checksum),
         work := e.work.(tasks := e.work.tasks - {id}))
  }

  // ---------------------------------------------------------------------------
  // RoCE storage workers, as seen by the reference counts

  function StartWorker(e: Engine, b: nat): (Engine, Reply) {
    var io := e.mem.next;
    (e.(mem := RetainBuffer(NewIo(e.mem, PendingIo()), b),
        work := e.work.(workers := e.work.workers[io := Worker(Some(b), io)])),
     Reply(Ok, Some(io)))
  }

  function WorkerReleases(e: Engine, id: nat): Engine
    requires id in e.work.workers
  {
    var k := e.work.workers[id];
    match k.buffer
    case None => e
    case Some(b) =>
      e.(mem := ReleaseBuffer(e.mem, b), work := e.work.(workers := e.work.workers[id := k.(buffer := None)]))
  }

  function WorkerFinishes(e: Engine, id: nat, status: Status, bytes: nat, checksum: bv32): Engine
    requires id in e.work.workers
  {
    e.(mem := FinishIo(e.mem, e.work.workers[id].io, status, bytes, checksum),
       work := e.work.(workers := e.work.workers - {id}))
  }

  // ---------------------------------------------------------------------------
  // Events

  datatype Event =
    | EOpen(client: nat)
    | EAttach(client: nat, comm: string, rank: nat, size: nat)
    | ENewBuffer(client: nat, bytes: Bytes, kind: BufferKind)
    | EFreeBuffer(buffer: nat)
    | EWrite(buffer: nat, offset: nat, data: Bytes)
    | EFreeIo(io: nat)
    | ECollective(client: nat, coll: CollKind, dst: nat, dstOffset: nat, src: nat, srcOffset: nat, count: nat,
                  dtype: DataType, op: ReduceOp)
    | ETransfer(client: nat, table: PairTable, role: PairRole, buffer: nat, offset: nat, count: nat, dtype: DataType,
                peer: nat)
    | EPrepare(client: nat, payload: Bytes)
    | EFreeBlock(block: nat)
    | ERegister(client: nat, buffer: nat, offset: nat, len: nat)
    | EUnregister(window: nat)
    | ECreatePlan(client: nat, source: Option<nat>, target: Option<nat>, offset: nat, options: DirectOptions)
    | EFreePlan(plan: nat)
    | ERead(client: nat, plan: nat)
    | EForward(task: nat)
    | EStartWorker(buffer: nat)
    | EWorkerReleases(worker: nat)
    | EWorkerFinishes(worker: nat, status: Status, size: nat, checksum: bv32)

  /** An IO that only a forwarding thread knows. */
  predicate Private(e: Engine, io: nat) {
    exists t :: t in e.work.tasks && e.work.tasks[t].inner == io
  }

  /** The calls that can be made at all: callers pass live handles of their own and write
      inside their buffers. Worker steps happen in the order of the worker's code. */
  predicate Callable(e: Engine, ev: Event) {
    match ev
    case EOpen(client) => client !in e.clients
    case EAttach(client, _, _, _) => client in e.clients
    case ENewBuffer(client, _, _) => true
    case EFreeBuffer(b) => b in e.mem.buffers
    case EWrite(b, offset, data) => ValidRange(e.mem, b, offset, |data|)
    case EFreeIo(io) => io in e.mem.ios && !Private(e, io)
    case ECollective(client, _, dst, _, src, _, _, _, _) =>
      client in e.clients && dst in e.mem.buffers && src in e.mem.buffers
    case ETransfer(client, _, _, b, _, _, _, _) => client in e.clients && b in e.mem.buffers
    case EPrepare(client, _) => true
    case EFreeBlock(b) => b in e.blocks
    case ERegister(client, b, _, _) => b in e.mem.buffers
    case EUnregister(w) => w in e.work.windows
    case ECreatePlan(client, block, dst, _, o) =>
      && client in e.clients
      && (block.Some? ==> block.value in e.blocks)
      && (dst.Some? ==> dst.value in e.mem.buffers)
      && (o.window.Some? ==> o.window.value in e.work.windows)
    case EFreePlan(p) => p in e.plans
    case ERead(client, p) => client in e.clients && p in e.plans
    case EForward(t) => t in e.work.tasks &&
      (e.work.tasks[t].inner in e.mem.ios ==> e.mem.ios[e.work.tasks[t].inner].done)
    case EStartWorker(b) => b in e.mem.buffers
    case EWorkerReleases(k) => k in e.work.workers
    case EWorkerFinishes(k, _, _, _) => k in e.work.workers && e.work.workers[k].buffer == None
  }

  /** What callers owe the library beyond that: a plan is read only while what it points to
      is alive. */
  predicate Legal(e: Engine, ev: Event) {
    Callable(e, ev) && (ev.ERead? ==> Readable(e, ev.client, e.plans[ev.plan]))
  }

  function Step(f: Reducer, e: Engine, ev: Event): (Engine, Reply)
    requires Callable(e, ev)
  {
    match ev
    case EOpen(client) => Open(e, client)
    case EAttach(client, comm, rank, size) => Attach(e, client, comm, rank, size)
    case ENewBuffer(client, bytes, kind) => NewBuffer(e, client, bytes, kind)
    case EFreeBuffer(b) => FreeBuffer(e, b)
    case EWrite(b, offset, data) => (e.(mem := Store(e.mem, b, offset, data)), Reply(Ok, None))
    case EFreeIo(io) => FreeIo(e, io)
    case ECollective(client, kind, dst, dstOffset, src, srcOffset, count, dtype, op) =>
      SubmitCollective(f, e, client, kind, dst, dstOffset, src, srcOffset, count, dtype, op)
    case ETransfer(client, table, role, b, offset, count, dtype, peer) =>
      SubmitTransfer(e, client, table, role, e.mem.buffers[b], b, offset, count, dtype, peer)
    case EPrepare(client, payload) => Prepare(e, client, payload)
    case EFreeBlock(b) => (e.(blocks := e.blocks - {b}), Reply(Ok, None))
    case ERegister(client, b, offset, len) => RegisterWindow(e, client, b, offset, len)
    case EUnregister(w) => ReleaseWindow(e, w)
    case ECreatePlan(client, block, dst, dstOffset, o) => CreatePlan(e, client, block, dst, dstOffset, o)
    case EFreePlan(p) => FreePlan(e, p)
    case ERead(client, p) => Read(e, client, p)
    case EForward(t) => (Forward(e, t), Reply(Ok, None))
    case EStartWorker(b) => StartWorker(e, b)
    case EWorkerReleases(k) => (WorkerReleases(e, k), Reply(Ok, None))
    case EWorkerFinishes(k, status, bytes, checksum) => (WorkerFinishes(e, k, status, bytes, checksum), Reply(Ok, None))
  }

  /** `e'` is reached from `e` by the events. */
  predicate Run(f: Reducer, e: Engine, events: seq<Event>, e': Engine)
    decreases |events|
  {
    if events == [] then e' == e
    else Legal(e, events[0]) && Run(f, Step(f, e, events[0]).0, events[1..], e')
  }
}
