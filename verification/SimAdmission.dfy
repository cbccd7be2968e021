/** Which calls are admitted, with what consequence, and how the others are answered: spelled out
    in the caller's terms, without the functions that check them. */
module SimAdmission {
  import opened Common
  import opened SimState
  import opened SimCollective
  import opened SimEngine

  /** The element types by size. */
  lemma Widths(t: DataType)
    ensures Width(t) == 1 <==> t == Int8 || t == UInt8
    ensures Width(t) == 2 <==> t == Int16 || t == UInt16 || t == Fp16 || t == Bfp16
    ensures Width(t) == 4 <==> t == Int32 || t == UInt32 || t == Fp32
    ensures Width(t) == 8 <==> t == Int64 || t == UInt64 || t == Fp64
    ensures Width(t) == 0 <==> t == UnknownType
  {
  }

  predicate ElementsFit(count: nat, dtype: DataType) {
    count > 0 && Width(dtype) > 0 && count * Width(dtype) <= SIZE_MAX
  }

  /** `len` bytes at `offset` lie inside a buffer of `size` bytes. */
  predicate Inside(size: int, offset: int, len: int) { 0 <= offset && 0 <= len && offset + len <= size }

  // ---------------------------------------------------------------------------
  // Collectives

  /** Everything but the kind of memory is in order. */
  predicate CollectiveInOrder(
    c: Client, m: Mem, kind: CollKind, dst: nat, dstOffset: nat, src: nat, srcOffset: nat, count: nat, dtype: DataType,
    op: ReduceOp)
    requires dst in m.buffers && src in m.buffers
  {
    && (kind == AllReduce ==> op != UnknownOp) && ElementsFit(count, dtype)
    && RangesInOrder(c, m, kind, dst, dstOffset, src, srcOffset, count * Width(dtype))
  }

  /** Every rank's bytes fit the source, and what comes out fits the destination. */
  predicate RangesInOrder(
    c: Client, m: Mem, kind: CollKind, dst: nat, dstOffset: nat, src: nat, srcOffset: nat, bytes: int)
    requires dst in m.buffers && src in m.buffers
  {
    var total := if kind == AllGather then bytes * c.size else bytes;
    && total <= SIZE_MAX && Inside(|m.buffers[src].bytes|, srcOffset, bytes)
    && Inside(|m.buffers[dst].bytes|, dstOffset, total)
  }

  predicate Simulated(kind: BufferKind) { kind == SimHbm || kind == SimHcclComm }

  /** A collective takes a number exactly under these conditions. */
  predicate CollectiveAdmitted(
    c: Client, m: Mem, kind: CollKind, dst: nat, dstOffset: nat, src: nat, srcOffset: nat, count: nat, dtype: DataType,
    op: ReduceOp)
    requires dst in m.buffers && src in m.buffers
  {
    && c.attached && c.size > 0 && CollectiveInOrder(c, m, kind, dst, dstOffset, src, srcOffset, count, dtype, op)
    && Simulated(m.buffers[src].kind) && Simulated(m.buffers[dst].kind)
  }

  /** Who is admitted, and what the others are told. */
  lemma CollectiveAdmittedExactly(
    c: Client, m: Mem, kind: CollKind, dst: nat, dstOffset: nat, src: nat, srcOffset: nat, count: nat, dtype: DataType,
    op: ReduceOp)
    requires dst in m.buffers && src in m.buffers
    ensures var d := DecideCollective(c, m, kind, dst, dstOffset, src, srcOffset, count, dtype, op);
            var attached := c.attached && c.size > 0;
            var inOrder := CollectiveInOrder(c, m, kind, dst, dstOffset, src, srcOffset, count, dtype, op);
            if CollectiveAdmitted(c, m, kind, dst, dstOffset, src, srcOffset, count, dtype, op) then d.Join?
            else d == if attached && !inOrder then Reject(InvalidArgument) else Complete(Unsupported)
  {
    if c.attached && c.size > 0 && (kind == AllReduce ==> op != UnknownOp) && ElementsFit(count, dtype) {
      BytesDecided(c, m, kind, dst, dstOffset, src, srcOffset, count, dtype, op, count * Width(dtype));
    }
  }

  lemma BytesDecided(
    c: Client, m: Mem, kind: CollKind, dst: nat, dstOffset: nat, src: nat, srcOffset: nat, count: nat, dtype: DataType,
    op: ReduceOp, bytes: nat)
    requires dst in m.buffers && src in m.buffers && c.attached && c.size > 0 && (kind == AllReduce ==> op != UnknownOp)
    requires CheckedBytes(count, dtype) == Some(bytes)
    ensures var d := DecideCollective(c, m, kind, dst, dstOffset, src, srcOffset, count, dtype, op);
            if !RangesInOrder(c, m, kind, dst, dstOffset, src, srcOffset, bytes) then d == Reject(InvalidArgument)
            else if Simulated(m.buffers[src].kind) && Simulated(m.buffers[dst].kind) then d.Join?
            else d == Complete(Unsupported)
  {
    var total := if kind == AllGather then bytes * c.size else bytes;
    if total <= SIZE_MAX {
      SizesDecided(c, m, kind, dst, dstOffset, src, srcOffset, CollParams(count, dtype, op, bytes, total));
    }
  }

  /** What an admitted collective takes to the table: its communicator and number, the
      parameters it was called with, and the bytes its source holds right now. */
  lemma CollectiveJoins(
    c: Client, m: Mem, kind: CollKind, dst: nat, dstOffset: nat, src: nat, srcOffset: nat, count: nat, dtype: DataType,
    op: ReduceOp)
    requires dst in m.buffers && src in m.buffers
    requires CollectiveAdmitted(c, m, kind, dst, dstOffset, src, srcOffset, count, dtype, op)
    ensures var d := DecideCollective(c, m, kind, dst, dstOffset, src, srcOffset, count, dtype, op);
            var bytes := count * Width(dtype);
            && d.Join? && d.request.key.comm == c.comm && d.request.key.size == c.size && d.request.key.kind == kind
            && d.request.key.index == Seq(c, CollCounter(kind))
            && d.request.params.count == count && d.request.params.dtype == dtype && d.request.params.op == op
            && d.request.params.inBytes == bytes
            && d.request.params.outBytes == (if kind == AllGather then bytes * c.size else bytes)
            && srcOffset + bytes <= |m.buffers[src].bytes|
            && d.request.payload == m.buffers[src].bytes[srcOffset..srcOffset + bytes]
  {
    var bytes := count * Width(dtype);
    var total := if kind == AllGather then bytes * c.size else bytes;
    SizesDecided(c, m, kind, dst, dstOffset, src, srcOffset, CollParams(count, dtype, op, bytes, total));
  }

  /** The checks that remain once the sizes are known. */
  lemma SizesDecided(
    c: Client, m: Mem, kind: CollKind, dst: nat, dstOffset: nat, src: nat, srcOffset: nat, p: CollParams)
    requires dst in m.buffers && src in m.buffers
    ensures var d := DecideSized(c, m, kind, dst, dstOffset, src, srcOffset, p);
            var ranges := Inside(|m.buffers[src].bytes|, srcOffset, p.inBytes) &&
                          Inside(|m.buffers[dst].bytes|, dstOffset, p.outBytes);
            var simulated := Simulated(m.buffers[src].kind) && Simulated(m.buffers[dst].kind);
            && (d == Reject(InvalidArgument) <==> !ranges) && (d == Complete(Unsupported) <==> ranges && !simulated)
            && (ranges && simulated ==>
                  d == Join(CollRequest(CollKey(c.comm, c.size, Seq(c, CollCounter(kind)), kind), p,
                                        m.buffers[src].bytes[srcOffset..srcOffset + p.inBytes])))
  {
  }

  // ---------------------------------------------------------------------------
  // Sends and receives

  /** Point-to-point works on both kinds of simulated memory, payload copies on HBM only. */
  predicate MemoryFits(table: PairTable, kind: BufferKind) {
    kind == SimHbm || (table == P2p && kind == SimHcclComm)
  }

  /** A send or receive takes a number exactly under these conditions. */
  predicate TransferAdmitted(
    c: Client, client: nat, table: PairTable, buffer: Buffer, offset: nat, count: nat, dtype: DataType, peer: nat)
  {
    && c.attached && c.size > 0 && (table == HcommPayload ==> c.size == 2) && peer < c.size && peer != c.rank
    && ElementsFit(count, dtype) && Inside(|buffer.bytes|, offset, count * Width(dtype))
    && buffer.owner == client && MemoryFits(table, buffer.kind)
  }

  /** The same for a send or receive: sender and receiver name one entry, by the sender's rank,
      the receiver's rank and their own count. */
  lemma TransferAdmittedExactly(
    c: Client, client: nat, table: PairTable, role: PairRole, buffer: Buffer, offset: nat, count: nat, dtype: DataType,
    peer: nat)
    ensures var d := DecideTransfer(c, client, table, role, buffer, offset, count, dtype, peer);
            var attached := c.attached && c.size > 0 && (table == HcommPayload ==> c.size == 2);
            if TransferAdmitted(c, client, table, buffer, offset, count, dtype, peer) then d.Join?
            else d == if attached then Reject(InvalidArgument) else Complete(Unsupported)
    ensures var d := DecideTransfer(c, client, table, role, buffer, offset, count, dtype, peer);
            var bytes := count * Width(dtype);
            d.Join? ==>
              && d.request.key.table == table && d.request.key.comm == c.comm && d.request.key.size == c.size
              && d.request.key.src == (if role == SendRole then c.rank else peer)
              && d.request.key.dst == (if role == SendRole then peer else c.rank)
              && d.request.key.index == Seq(c, PairCounter(table, role))
              && d.request.meta.count == count && d.request.meta.dtype == dtype && d.request.meta.bytes == bytes
              && offset + bytes <= |buffer.bytes| && d.request.payload == buffer.bytes[offset..offset + bytes]
  {
  }

  // ---------------------------------------------------------------------------
  // Calls that are not admitted

  /** The call returns a new IO that is complete and says unsupported; nothing else changes. */
  predicate SaysUnsupported(e: Engine, e': Engine, reply: Reply) {
    && reply == Reply(Ok, Some(e.mem.next))
    && e' == e.(mem := e.mem.(ios := e.mem.ios[e.mem.next := Io(true, Unsupported, 0, 0, 0)], next := e.mem.next + 1))
  }

  predicate SaysInvalid(e: Engine, e': Engine, reply: Reply) { reply == Reply(InvalidArgument, None) && e' == e }

  lemma CollectiveNotAdmitted(
    f: Reducer, e: Engine, client: nat, kind: CollKind, dst: nat, dstOffset: nat, src: nat, srcOffset: nat,
    count: nat, dtype: DataType, op: ReduceOp)
    requires client in e.clients && dst in e.mem.buffers && src in e.mem.buffers
    requires !CollectiveAdmitted(e.clients[client], e.mem, kind, dst, dstOffset, src, srcOffset, count, dtype, op)
    ensures var c := e.clients[client];
            var (e', reply) := SubmitCollective(f, e, client, kind, dst, dstOffset, src, srcOffset, count, dtype, op);
            if c.attached && c.size > 0 &&
               !CollectiveInOrder(c, e.mem, kind, dst, dstOffset, src, srcOffset, count, dtype, op)
            then SaysInvalid(e, e', reply) else SaysUnsupported(e, e', reply)
  {
    CollectiveAdmittedExactly(e.clients[client], e.mem, kind, dst, dstOffset, src, srcOffset, count, dtype, op);
  }

  lemma TransferNotAdmitted(
    e: Engine, client: nat, table: PairTable, role: PairRole, buffer: Buffer, handle: nat, offset: nat,
    count: nat, dtype: DataType, peer: nat)
    requires client in e.clients
    requires !TransferAdmitted(e.clients[client], client, table, buffer, offset, count, dtype, peer)
    ensures var c := e.clients[client];
            var (e', reply) := SubmitTransfer(e, client, table, role, buffer, handle, offset, count, dtype, peer);
            if c.attached && c.size > 0 && (table == HcommPayload ==> c.size == 2)
            then SaysInvalid(e, e', reply) else SaysUnsupported(e, e', reply)
  {
    TransferAdmittedExactly(e.clients[client], client, table, role, buffer, offset, count, dtype, peer);
  }

  // ---------------------------------------------------------------------------
  // Plans

  /** An automatic path is direct for an attached client and for one that insists on it, and
      goes through the host otherwise. */
  predicate AsksHost(o: DirectOptions, attached: bool) {
    o.path == HostStaging || (o.path == AutoPath && !attached && !o.requireDirect)
  }

  predicate AsksDirect(o: DirectOptions, attached: bool) {
    o.path == SimDirect || (o.path == AutoPath && (attached || o.requireDirect))
  }

  /** A staging role stages whatever the path says; an automatic role stages on the host path. */
  predicate AsksStaging(o: DirectOptions, attached: bool) {
    o.role == StagingRole || (o.role == AutoRole && AsksHost(o, attached))
  }

  /** Otherwise an automatic role sends if there is a block and receives if there is none. */
  predicate AsksSend(o: DirectOptions, hasBlock: bool) { o.role == SourceSend || (o.role == AutoRole && hasBlock) }

  predicate AsksReceive(o: DirectOptions, hasBlock: bool) { o.role == TargetRecv || (o.role == AutoRole && !hasBlock) }

  /** The bytes a plan covers: those asked for, or everything there is. */
  function Asked(len: nat, all: int): int { if len == 0 then all else len }

  predicate StagingInOrder(e: Engine, client: nat, block: Option<nat>, dst: Option<nat>, dstOffset: nat, len: nat) {
    && block.Some? && block.value in e.blocks && dst.Some? && dst.value in e.mem.buffers
    && e.blocks[block.value].client == client && e.mem.buffers[dst.value].owner == client
    && 0 < Asked(len, |e.blocks[block.value].payload|) <= |e.blocks[block.value].payload|
    && Inside(|e.mem.buffers[dst.value].bytes|, dstOffset, Asked(len, |e.blocks[block.value].payload|))
  }

  predicate SendInOrder(e: Engine, client: nat, block: Option<nat>, dst: Option<nat>, len: nat) {
    && block.Some? && block.value in e.blocks && dst == None && e.blocks[block.value].client == client
    && 0 < Asked(len, |e.blocks[block.value].payload|) <= |e.blocks[block.value].payload|
  }

  predicate ReceiveInOrder(
    e: Engine, client: nat, block: Option<nat>, dst: Option<nat>, dstOffset: nat, len: nat, direct: bool,
    window: Option<nat>)
  {
    && block == None && dst.Some? && dst.value in e.mem.buffers && e.mem.buffers[dst.value].owner == client
    && var n := Asked(len, |e.mem.buffers[dst.value].bytes| - dstOffset);
       && 0 < n && Inside(|e.mem.buffers[dst.value].bytes|, dstOffset, n)
       && (direct ==>
             && window.Some? && window.value in e.work.windows
             && var w := e.work.windows[window.value];
                w.client == client && w.buffer == dst.value && w.offset <= dstOffset &&
                  dstOffset + n <= w.offset + w.len)
  }

  /** Handles, owners, ranges and the window are what the role needs. */
  predicate RoleInOrder(
    e: Engine, client: nat, block: Option<nat>, dst: Option<nat>, dstOffset: nat, o: DirectOptions, attached: bool)
  {
    if AsksStaging(o, attached) then StagingInOrder(e, client, block, dst, dstOffset, o.len)
    else if AsksSend(o, block.Some?) then SendInOrder(e, client, block, dst, o.len)
    else AsksReceive(o, block.Some?) &&
         ReceiveInOrder(e, client, block, dst, dstOffset, o.len, AsksDirect(o, attached), o.window)
  }

  /** Path and role go together, and the path is one the caller allows. */
  predicate PathAllowed(o: DirectOptions, attached: bool) {
    if AsksStaging(o, attached) then !o.requireDirect && o.allowStaging
    else !AsksHost(o, attached) && (o.requireDirect ==> AsksDirect(o, attached))
  }

  predicate PeerInOrder(c: Client, peer: nat) { c.size == 2 && peer < 2 && peer != c.rank }

  /** A plan is made exactly under these conditions. */
  predicate PlanAdmitted(
    e: Engine, client: nat, block: Option<nat>, dst: Option<nat>, dstOffset: nat, o: DirectOptions)
    requires client in e.clients
  {
    var c := e.clients[client];
    && PathAllowed(o, c.attached) && RoleInOrder(e, client, block, dst, dstOffset, o, c.attached)
    && (!AsksStaging(o, c.attached) && AsksDirect(o, c.attached) ==>
          && c.attached && PeerInOrder(c, o.peer)
          && (!AsksSend(o, block.Some?) ==> e.mem.buffers[dst.value].kind == SimHbm))
  }

  /** A refusal is about the path: one the caller rules out, or a direct one without a
      communicator and otherwise in order. Every other refusal is an invalid argument. */
  predicate PathUnsupported(
    e: Engine, client: nat, block: Option<nat>, dst: Option<nat>, dstOffset: nat, o: DirectOptions)
    requires client in e.clients
  {
    var attached := e.clients[client].attached;
    if AsksStaging(o, attached) then o.requireDirect || !o.allowStaging
    else
      && !AsksHost(o, attached)
      && ((o.requireDirect && !AsksDirect(o, attached)) ||
          (AsksDirect(o, attached) && !attached && RoleInOrder(e, client, block, dst, dstOffset, o, attached)))
  }

  /** The plan a caller gets. */
  predicate PlanAsAsked(
    e: Engine, client: nat, block: Option<nat>, dst: Option<nat>, dstOffset: nat, o: DirectOptions, p: Plan)
    requires client in e.clients && PlanAdmitted(e, client, block, dst, dstOffset, o)
  {
    var attached := e.clients[client].attached;
    && p.client == client && p.block == block && p.dst == dst && p.window == o.window && p.dstOffset == dstOffset
    && p.peer == o.peer && p.requireDirect == o.requireDirect && p.allowStaging == o.allowStaging
    && (if AsksStaging(o, attached) then
          && p.path == HostStaging && p.role == StagingRole
          && p.bytes == Asked(o.len, |e.blocks[block.value].payload|)
        else
          && p.path == (if AsksDirect(o, attached) then SimDirect else OtherPath)
          && (if AsksSend(o, block.Some?) then
                p.role == SourceSend && p.bytes == Asked(o.len, |e.blocks[block.value].payload|)
              else
                p.role == TargetRecv && p.bytes == Asked(o.len, |e.mem.buffers[dst.value].bytes| - dstOffset)))
  }

  // Path and role of the checks, in these terms.

  lemma PathChosen(o: DirectOptions, attached: bool, hasBlock: bool)
    ensures AsksStaging(o, attached) ==>
              ChosenPath(o, attached) == HostStaging && ChosenRole(o, attached, hasBlock) == StagingRole
    ensures !AsksStaging(o, attached) ==>
              && (ChosenPath(o, attached) == HostStaging <==> AsksHost(o, attached))
              && (ChosenPath(o, attached) == SimDirect <==> AsksDirect(o, attached))
              && (!AsksHost(o, attached) && !AsksDirect(o, attached) ==> ChosenPath(o, attached) == OtherPath)
              && ChosenRole(o, attached, hasBlock) != StagingRole
              && (ChosenRole(o, attached, hasBlock) == SourceSend <==> AsksSend(o, hasBlock))
              && (ChosenRole(o, attached, hasBlock) == TargetRecv <==> AsksReceive(o, hasBlock))
  {
  }

  lemma StagingChecked(e: Engine, client: nat, block: Option<nat>, dst: Option<nat>, dstOffset: nat, len: nat)
    requires (block.Some? ==> block.value in e.blocks) && (dst.Some? ==> dst.value in e.mem.buffers)
    ensures CheckStaging(e, client, block, dst, dstOffset, len) ==
            if StagingInOrder(e, client, block, dst, dstOffset, len)
            then Accepted(Asked(len, |e.blocks[block.value].payload|)) else Refused(InvalidArgument)
  {
  }

  lemma SendChecked(e: Engine, client: nat, block: Option<nat>, dst: Option<nat>, len: nat)
    requires block.Some? ==> block.value in e.blocks
    ensures CheckSource(e, client, block, dst, len) ==
            if SendInOrder(e, client, block, dst, len)
            then Accepted(Asked(len, |e.blocks[block.value].payload|)) else Refused(InvalidArgument)
  {
  }

  lemma ReceiveChecked(
    e: Engine, client: nat, block: Option<nat>, dst: Option<nat>, dstOffset: nat, len: nat, direct: bool,
    window: Option<nat>)
    requires (dst.Some? ==> dst.value in e.mem.buffers) && (window.Some? ==> window.value in e.work.windows)
    ensures CheckTarget(e, client, block, dst, dstOffset, len, direct, window) ==
            if ReceiveInOrder(e, client, block, dst, dstOffset, len, direct, window)
            then Accepted(Asked(len, |e.mem.buffers[dst.value].bytes| - dstOffset)) else Refused(InvalidArgument)
  {
  }

  /** The outcome of the role's own checks. */
  predicate RoleBytes(
    e: Engine, block: Option<nat>, dst: Option<nat>, dstOffset: nat, o: DirectOptions, attached: bool, bytes: nat)
  {
    if AsksStaging(o, attached) || AsksSend(o, block.Some?)
    then block.Some? && block.value in e.blocks && bytes == Asked(o.len, |e.blocks[block.value].payload|)
    else && dst.Some? && dst.value in e.mem.buffers
         && bytes == Asked(o.len, |e.mem.buffers[dst.value].bytes| - dstOffset)
  }

  lemma RoleChecked(
    e: Engine, client: nat, block: Option<nat>, dst: Option<nat>, dstOffset: nat, o: DirectOptions, attached: bool)
    requires (block.Some? ==> block.value in e.blocks) && (dst.Some? ==> dst.value in e.mem.buffers)
    requires o.window.Some? ==> o.window.value in e.work.windows
    ensures var path, role := ChosenPath(o, attached), ChosenRole(o, attached, block.Some?);
            var checked := match role
              case SourceSend => CheckSource(e, client, block, dst, o.len)
              case TargetRecv => CheckTarget(e, client, block, dst, dstOffset, o.len, path == SimDirect, o.window)
              case StagingRole => CheckStaging(e, client, block, dst, dstOffset, o.len)
              case _ => Refused(InvalidArgument);
            if RoleInOrder(e, client, block, dst, dstOffset, o, attached)
            then checked.Accepted? && RoleBytes(e, block, dst, dstOffset, o, attached, checked.bytes)
            else checked == Refused(InvalidArgument)
  {
    PathChosen(o, attached, block.Some?);
    StagingChecked(e, client, block, dst, dstOffset, o.len);
    SendChecked(e, client, block, dst, o.len);
    ReceiveChecked(e, client, block, dst, dstOffset, o.len, ChosenPath(o, attached) == SimDirect, o.window);
  }

  /** What is decided about a plan. */
  lemma PlanDecided(e: Engine, client: nat, block: Option<nat>, dst: Option<nat>, dstOffset: nat, o: DirectOptions)
    requires Legal(e, ECreatePlan(client, block, dst, dstOffset, o))
    ensures var d := CheckPlan(e, client, block, dst, dstOffset, o);
            if PlanAdmitted(e, client, block, dst, dstOffset, o)
            then d.Accepted? && RoleBytes(e, block, dst, dstOffset, o, e.clients[client].attached, d.bytes)
            else d == Refused(if PathUnsupported(e, client, block, dst, dstOffset, o) then Unsupported
                              else InvalidArgument)
  {
    var attached := e.clients[client].attached;
    PathChosen(o, attached, block.Some?);
    RoleChecked(e, client, block, dst, dstOffset, o, attached);
  }

  /** The plan theorem: a plan is made exactly under the conditions above and is then the one
      asked for; any other call changes nothing and is answered by the reason. */
  lemma PlanAdmittedExactly(
    e: Engine, client: nat, block: Option<nat>, dst: Option<nat>, dstOffset: nat, o: DirectOptions)
    requires Legal(e, ECreatePlan(client, block, dst, dstOffset, o))
    ensures var r := CreatePlan(e, client, block, dst, dstOffset, o);
            if PlanAdmitted(e, client, block, dst, dstOffset, o) then
              && r.1 == Reply(Ok, Some(e.mem.next)) && r.0.plans.Keys == e.plans.Keys + {e.mem.next}
              && (forall p :: p in e.plans && p != e.mem.next ==> r.0.plans[p] == e.plans[p])
              && PlanAsAsked(e, client, block, dst, dstOffset, o, r.0.plans[e.mem.next])
            else
              && r.0 == e
              && r.1 == Reply(if PathUnsupported(e, client, block, dst, dstOffset, o) then Unsupported
                              else InvalidArgument, None)
  {
    PlanDecided(e, client, block, dst, dstOffset, o);
    PathChosen(o, e.clients[client].attached, block.Some?);
  }

  /** With the library's default options: an attached client sends a block it names, whole and
      directly, and a client without a communicator stages it. */
  lemma DefaultOptionsPlan(e: Engine, client: nat, block: nat, dst: Option<nat>, dstOffset: nat, peer: nat)
    requires Legal(e,
                   ECreatePlan(client, Some(block), dst, dstOffset,
                               DirectOptions(AutoPath, AutoRole, None, peer, 0, false, true)))
    requires e.blocks[block].client == client && e.blocks[block].payload != []
    ensures var c, r := e.clients[client], CreatePlan(e, client, Some(block), dst, dstOffset,
                                                      DirectOptions(AutoPath, AutoRole, None, peer, 0, false, true));
            && (c.attached ==> (r.1.status == Ok <==> dst == None && PeerInOrder(c, peer)))
            && (!c.attached ==>
                  (r.1.status == Ok <==>
                     && dst.Some? && e.mem.buffers[dst.value].owner == client
                     && Inside(|e.mem.buffers[dst.value].bytes|, dstOffset, |e.blocks[block].payload|)))
            && (r.1.status == Ok ==>
                  && e.mem.next in r.0.plans && r.0.plans[e.mem.next].bytes == |e.blocks[block].payload|
                  && r.0.plans[e.mem.next].path == (if c.attached then SimDirect else HostStaging)
                  && r.0.plans[e.mem.next].role == (if c.attached then SourceSend else StagingRole))
  {
    PlanAdmittedExactly(e, client, Some(block), dst, dstOffset,
                        DirectOptions(AutoPath, AutoRole, None, peer, 0, false, true));
  }
}
