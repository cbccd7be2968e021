/** The simulated direct path agrees with host staging. */
module SimDirect {
  import opened Common
  import opened SimState
  import opened SimLedger
  import opened SimCollective
  import opened SimCollectiveInv
  import opened SimPair
  import opened SimEngine
  import opened SimEngineInv
  import opened SimRuns
  import opened SimSafety
  import opened SimFifo
  import opened SimPassage

  /** A direct source plan of `client` for `peer`; `payload` is the part of its block that it
      covers. */
  predicate SourcePlan(e: Engine, client: nat, peer: nat, id: nat, payload: Bytes) {
    && id in e.plans && 0 < |payload| <= SIZE_MAX
    && var p := e.plans[id];
       && p.path == SimDirect && p.role == SourceSend && p.client == client && p.peer == peer
       && p.block.Some? && p.block.value in e.blocks && payload <= e.blocks[p.block.value].payload
       && p.bytes == |payload|
  }

  /** A direct target plan of `client` for `peer` for the same number of bytes. */
  predicate TargetPlan(e: Engine, client: nat, peer: nat, id: nat, bytes: nat) {
    && id in e.plans && 0 < bytes <= SIZE_MAX
    && var p := e.plans[id];
       p.path == SimDirect && p.role == TargetRecv && p.client == client && p.peer == peer && p.bytes == bytes
  }

  /** `client` is a rank of a two-rank communicator, `peer` the other rank, and `k` is the
      entry its next payload copy in the given role goes to. */
  predicate NextEntry(e: Engine, client: nat, role: PairRole, peer: nat, k: PairKey) {
    && client in e.clients && e.clients[client].attached && e.clients[client].size == 2
    && peer < 2 && peer != e.clients[client].rank
    && TransferKey(e.clients[client], HcommPayload, role, peer) == k
  }

  function ByteMeta(n: nat): PairMeta { PairMeta(n, UInt8, n) }

  lemma SourceDecides(c: Client, client: nat, block: Bytes, payload: Bytes, peer: nat)
    requires c.attached && c.size == 2 && peer < 2 && peer != c.rank && 0 < |payload| <= SIZE_MAX && payload <= block
    ensures var buffer := Buffer(client, block, SimHbm, 0);
            DecideTransfer(c, client, HcommPayload, SendRole, buffer, 0, |payload|, UInt8, peer) ==
            Join(PairRequest(TransferKey(c, HcommPayload, SendRole, peer), ByteMeta(|payload|), payload))
  {
    assert block[0..|payload|] == payload;
  }

  lemma TargetDecides(c: Client, client: nat, buffer: Buffer, offset: nat, bytes: nat, peer: nat)
    requires c.attached && c.size == 2 && peer < 2 && peer != c.rank && 0 < bytes <= SIZE_MAX
    requires Fits(buffer, offset, bytes) && buffer.owner == client && buffer.kind == SimHbm
    ensures DecideTransfer(c, client, HcommPayload, RecvRole, buffer, offset, bytes, UInt8, peer) ==
            Join(PairRequest(TransferKey(c, HcommPayload, RecvRole, peer), ByteMeta(bytes),
                             buffer.bytes[offset..offset + bytes]))
  {
  }

  /** The range of a direct target plan, as the engine sees it. */
  lemma TargetRange(e: Engine, id: nat)
    requires Inv(e) && id in e.plans && e.plans[id].path == SimDirect && e.plans[id].role == TargetRecv
    ensures var p := e.plans[id];
            && p.dst.Some? && ValidRange(e.mem, p.dst.value, p.dstOffset, p.bytes)
            && e.mem.buffers[p.dst.value].owner == p.client && e.mem.buffers[p.dst.value].kind == SimHbm
  {
    var p := e.plans[id];
    assert PlanValid(e.work.windows, p);
    assert WindowValid(e.mem, e.work.windows[p.window.value]);
  }

  lemma SourceReads(e: Engine, client: nat, peer: nat, id: nat, payload: Bytes, k: PairKey)
    requires SourcePlan(e, client, peer, id, payload) && NextEntry(e, client, SendRole, peer, k)
    ensures Legal(e, ERead(client, id))
    ensures Read(e, client, id) ==
            Wrap(JoinTransfer(e, client, SendRole, PairRequest(k, ByteMeta(|payload|), payload), 0, 0))
  {
    SourceDecides(e.clients[client], client, e.blocks[e.plans[id].block.value].payload, payload, peer);
  }

  lemma TargetReads(e: Engine, client: nat, peer: nat, id: nat, bytes: nat, k: PairKey, b: nat)
    requires TargetPlan(e, client, peer, id, bytes) && NextEntry(e, client, RecvRole, peer, k)
    requires e.plans[id].dst == Some(b) && ValidRange(e.mem, b, e.plans[id].dstOffset, bytes)
    requires e.mem.buffers[b].owner == client && e.mem.buffers[b].kind == SimHbm
    ensures Legal(e, ERead(client, id))
    ensures var p := e.plans[id];
            Read(e, client, id) ==
            Wrap(JoinTransfer(e, client, RecvRole, PairRequest(k, ByteMeta(bytes), Load(e.mem, b, p.dstOffset, bytes)),
                              b, p.dstOffset))
  {
    TargetDecides(e.clients[client], client, e.mem.buffers[b], e.plans[id].dstOffset, bytes, peer);
  }

  /** `e'` is what a submission to entry `k` and its wrapper make of `e`. */
  predicate Submits(e: Engine, e': Engine, client: nat, role: PairRole, q: PairRequest, handle: nat, offset: nat) {
    client in e.clients && e' == Wrap(JoinTransfer(e, client, role, q, handle, offset)).0
  }

  /** The first submission to a free entry waits there; nothing else moves. */
  ghost predicate Waiting(e: Engine, e': Engine, client: nat, k: PairKey, entry: PendingPair) {
    && Inv(e') && SameBytes(e.mem, e'.mem) && e'.plans == e.plans && e'.blocks == e.blocks
    && k in e'.work.pairs && e'.work.pairs[k] == entry
    && client in e.clients && e'.clients.Keys == e.clients.Keys
    && forall c :: c in e.clients && c != client ==> e'.clients[c] == e.clients[c]
  }

  lemma JoinedInv(e: Engine, client: nat, role: PairRole, q: PairRequest, handle: nat, offset: nat)
    requires Inv(e) && client in e.clients && MeetOk(e.mem, role, q.meta, q.payload, handle, offset)
    ensures Inv(Wrap(JoinTransfer(e, client, role, q, handle, offset)).0)
  {
    MeetingInv(e, client, role, q, handle, offset);
    WrapInv(e, JoinTransfer(e, client, role, q, handle, offset));
  }

  lemma FirstWaits(e: Engine, e': Engine, client: nat, role: PairRole, q: PairRequest, handle: nat, offset: nat)
    requires Inv(e) && Submits(e, e', client, role, q, handle, offset)
    requires MeetOk(e.mem, role, q.meta, q.payload, handle, offset) && q.key !in e.work.pairs
    ensures Waiting(e, e', client, q.key, NewEntry(role, q.meta, q.payload, handle, offset, e.mem.next))
  {
    JoinedInv(e, client, role, q, handle, offset);
    JoinFrame(e, client, role, q, handle, offset);
    FirstStored(e, client, role, q, handle, offset);
  }

  lemma FirstStored(e: Engine, client: nat, role: PairRole, q: PairRequest, handle: nat, offset: nat)
    requires PairsValid(e.mem, e.work) && client in e.clients
    requires MeetOk(e.mem, role, q.meta, q.payload, handle, offset) && q.key !in e.work.pairs
    ensures var e' := Wrap(JoinTransfer(e, client, role, q, handle, offset)).0;
            && SameBytes(e.mem, e'.mem) && q.key in e'.work.pairs
            && e'.work.pairs[q.key] == NewEntry(role, q.meta, q.payload, handle, offset, e.mem.next)
  {
    MeetTable(CoreOf(e), q.key, role, q.meta, q.payload, handle, offset);
    FirstHalfWaits(CoreOf(e), q.key, role, q.meta, q.payload, handle, offset);
  }

  /** A wrapped submission leaves plans, blocks and all other clients alone. */
  lemma JoinFrame(e: Engine, client: nat, role: PairRole, q: PairRequest, handle: nat, offset: nat)
    requires client in e.clients
    ensures var e' := Wrap(JoinTransfer(e, client, role, q, handle, offset)).0;
            && e'.plans == e.plans && e'.blocks == e.blocks && e'.clients.Keys == e.clients.Keys
            && forall c :: c in e.clients && c != client ==> e'.clients[c] == e.clients[c]
  {
  }

  predicate BothDone(m: Mem, first: nat, second: nat, payload: Bytes) {
    && FinishedWith(m, first, Ok, |payload|, Checksum32(payload))
    && FinishedWith(m, second, Ok, |payload|, Checksum32(payload))
  }

  lemma WrapKeeps(m: Mem, r: (Engine, Reply), dst: nat, offset: nat, data: Bytes, first: nat, second: nat)
    requires r.1.status == Ok && r.1.handle.Some? && first < r.0.mem.next && second < r.0.mem.next
    requires Delivered(m, r.0.mem, dst, offset, data) && BothDone(r.0.mem, first, second, data)
    ensures Delivered(m, Wrap(r).0.mem, dst, offset, data) && BothDone(Wrap(r).0.mem, first, second, data)
  {
  }

  /** What the second half does in the table. */
  lemma SecondHalf(c: Core, k: PairKey, role: PairRole, meta: PairMeta, payload: Bytes, handle: nat, offset: nat)
    requires Balanced(c.mem, c.work) && PairsValid(c.mem, c.work) && MeetOk(c.mem, role, meta, payload, handle, offset)
    requires k in c.work.pairs && c.work.pairs[k].meta == Some(meta)
    requires (c.work.pairs[k].send.Some? <==> role == RecvRole)
    ensures PairValid(c.mem, c.work.pairs[k])
    ensures var front := c.work.pairs[k];
            var m' := Meet(c, k, role, meta, payload, handle, offset).mem;
            var data := if role == SendRole then payload else front.send.value.payload;
            var (b, at) := if role == SendRole then (front.recv.value.dst, front.recv.value.offset)
              else (handle, offset);
            var waiting := if role == SendRole then front.recv.value.io else front.send.value.io;
            && Delivered(c.mem, m', b, at, data) && BothDone(m', waiting, c.mem.next, data)
            && m'.next == c.mem.next + 1 && waiting < c.mem.next
  {
    WaitingIo(c.mem, c.work, k);
    MatchDelivers(c, k, role, meta, payload, handle, offset);
    assert Meet(c, k, role, meta, payload, handle, offset).mem.next == c.mem.next + 1 by {
      MeetKeeps(c, k, role, meta, payload, handle, offset);
    }
  }

  /** The IO that waits in an entry is an older one. */
  lemma WaitingIo(m: Mem, w: Work, k: PairKey)
    requires Balanced(m, w) && PairsValid(m, w) && k in w.pairs
    ensures PairValid(m, w.pairs[k])
    ensures w.pairs[k].send.Some? ==> w.pairs[k].send.value.io < m.next
    ensures w.pairs[k].recv.Some? ==> w.pairs[k].recv.value.io < m.next
  {
    if w.pairs[k].send.Some? {
      assert HoldsIo(w, SendAt(k), w.pairs[k].send.value.io);
    } else {
      assert HoldsIo(w, RecvAt(k), w.pairs[k].recv.value.io);
    }
  }

  /** A send that meets a waiting receive delivers its payload to it. */
  lemma SendMeets(e: Engine, e': Engine, client: nat, q: PairRequest, recv: RecvHalf)
    requires Balanced(e.mem, e.work) && PairsValid(e.mem, e.work)
    requires Submits(e, e', client, SendRole, q, 0, 0) && |q.payload| == q.meta.bytes
    requires q.key in e.work.pairs && e.work.pairs[q.key] == PendingPair(Some(q.meta), None, Some(recv))
    ensures Delivered(e.mem, e'.mem, recv.dst, recv.offset, q.payload)
    ensures BothDone(e'.mem, recv.io, e.mem.next, q.payload)
  {
    var r := JoinTransfer(e, client, SendRole, q, 0, 0);
    SecondHalf(CoreOf(e), q.key, SendRole, q.meta, q.payload, 0, 0);
    assert r.0.mem == Meet(CoreOf(e), q.key, SendRole, q.meta, q.payload, 0, 0).mem;
    WrapKeeps(e.mem, r, recv.dst, recv.offset, q.payload, recv.io, e.mem.next);
  }

  /** A receive that meets a waiting send takes its payload. */
  lemma RecvMeets(e: Engine, e': Engine, client: nat, q: PairRequest, handle: nat, offset: nat, send: SendHalf)
    requires Balanced(e.mem, e.work) && PairsValid(e.mem, e.work)
    requires Submits(e, e', client, RecvRole, q, handle, offset) && ValidRange(e.mem, handle, offset, q.meta.bytes)
    requires q.key in e.work.pairs && e.work.pairs[q.key] == PendingPair(Some(q.meta), Some(send), None)
    ensures Delivered(e.mem, e'.mem, handle, offset, send.payload)
    ensures BothDone(e'.mem, send.io, e.mem.next, send.payload)
  {
    var r := JoinTransfer(e, client, RecvRole, q, handle, offset);
    SecondHalf(CoreOf(e), q.key, RecvRole, q.meta, q.payload, handle, offset);
    assert r.0.mem == Meet(CoreOf(e), q.key, RecvRole, q.meta, q.payload, handle, offset).mem;
    WrapKeeps(e.mem, r, handle, offset, send.payload, send.io, e.mem.next);
  }

  // ---------------------------------------------------------------------------
  // The two orders

  /** One read of a plan. */
  predicate Reads(e: Engine, client: nat, id: nat, e': Engine) {
    Legal(e, ERead(client, id)) && e' == Read(e, client, id).0
  }

  lemma SourceFirst(e: Engine, e': Engine, client: nat, peer: nat, id: nat, payload: Bytes, k: PairKey)
    requires Inv(e) && SourcePlan(e, client, peer, id, payload) && NextEntry(e, client, SendRole, peer, k)
    requires k !in e.work.pairs
    requires Reads(e, client, id, e')
    ensures Waiting(e, e', client, k, PendingPair(Some(ByteMeta(|payload|)), Some(SendHalf(payload, e.mem.next)), None))
  {
    SourceReads(e, client, peer, id, payload, k);
    FirstWaits(e, e', client, SendRole, PairRequest(k, ByteMeta(|payload|), payload), 0, 0);
  }

  lemma TargetFirst(e: Engine, e': Engine, client: nat, peer: nat, id: nat, bytes: nat, k: PairKey)
    requires Inv(e) && TargetPlan(e, client, peer, id, bytes) && NextEntry(e, client, RecvRole, peer, k)
    requires k !in e.work.pairs
    requires Reads(e, client, id, e')
    ensures var p := e.plans[id];
            p.dst.Some? &&
            Waiting(e, e', client, k,
                    PendingPair(Some(ByteMeta(bytes)), None, Some(RecvHalf(p.dst.value, p.dstOffset, e.mem.next))))
  {
    TargetRange(e, id);
    var p := e.plans[id];
    TargetReads(e, client, peer, id, bytes, k, p.dst.value);
    FirstWaits(e, e', client, RecvRole, PairRequest(k, ByteMeta(bytes), Load(e.mem, p.dst.value, p.dstOffset, bytes)),
               p.dst.value, p.dstOffset);
  }

  lemma SourceSecond(e: Engine, e': Engine, client: nat, peer: nat, id: nat, payload: Bytes, k: PairKey, recv: RecvHalf)
    requires Inv(e) && SourcePlan(e, client, peer, id, payload) && NextEntry(e, client, SendRole, peer, k)
    requires k in e.work.pairs && e.work.pairs[k] == PendingPair(Some(ByteMeta(|payload|)), None, Some(recv))
    requires Reads(e, client, id, e')
    ensures Delivered(e.mem, e'.mem, recv.dst, recv.offset, payload) && BothDone(e'.mem, recv.io, e.mem.next, payload)
  {
    SourceReads(e, client, peer, id, payload, k);
    SendMeets(e, e', client, PairRequest(k, ByteMeta(|payload|), payload), recv);
  }

  lemma TargetSecond(e: Engine, e': Engine, client: nat, peer: nat, id: nat, bytes: nat, k: PairKey, send: SendHalf)
    requires Inv(e) && TargetPlan(e, client, peer, id, bytes) && NextEntry(e, client, RecvRole, peer, k)
    requires k in e.work.pairs && e.work.pairs[k] == PendingPair(Some(ByteMeta(bytes)), Some(send), None)
    requires Reads(e, client, id, e')
    ensures var p := e.plans[id];
            p.dst.Some? && Delivered(e.mem, e'.mem, p.dst.value, p.dstOffset, send.payload) &&
            BothDone(e'.mem, send.io, e.mem.next, send.payload)
  {
    TargetRange(e, id);
    var p := e.plans[id];
    TargetReads(e, client, peer, id, bytes, k, p.dst.value);
    RecvMeets(e, e', client, PairRequest(k, ByteMeta(bytes), Load(e.mem, p.dst.value, p.dstOffset, bytes)),
              p.dst.value, p.dstOffset, send);
  }

  /** A sender and a receiver of one communicator, anything in flight between them, and
      matching direct plans. */
  ghost predicate Matched(e: Engine, d: Direction, s: nat, t: nat, payload: Bytes) {
    && Inv(e) && d.table == HcommPayload && FifoInv(e, d)
    && SourcePlan(e, d.sender, e.clients[d.receiver].rank, s, payload)
    && TargetPlan(e, d.receiver, e.clients[d.sender].rank, t, |payload|)
  }

  /** Creating a plan adds the plan and leaves clients, blocks and tables of transfers alone. */
  predicate Planned(e: Engine, e': Engine, plan: Plan) {
    && e'.plans == e.plans[e.mem.next := plan] && e'.clients == e.clients && e'.blocks == e.blocks
    && e'.work.pairs == e.work.pairs && e'.mem.next == e.mem.next + 1
  }

  /** The part of a block that a source plan of length `len` covers; zero means all of it. */
  predicate Covers(block: Bytes, len: nat, payload: Bytes) {
    payload <= block && |payload| == (if len == 0 then |block| else len) && 0 < |payload| <= SIZE_MAX
  }

  lemma SourceCreated(e: Engine, e': Engine, client: nat, block: nat, o: DirectOptions, payload: Bytes)
    requires Legal(e, ECreatePlan(client, Some(block), None, 0, o)) && Covers(e.blocks[block].payload, o.len, payload)
    requires CreatePlan(e, client, Some(block), None, 0, o) == (e', Reply(Ok, Some(e.mem.next)))
    requires ChosenPath(o, e.clients[client].attached) == SimDirect
    requires ChosenRole(o, e.clients[client].attached, true) == SourceSend
    ensures e.mem.next in e'.plans && Planned(e, e', e'.plans[e.mem.next])
    ensures SourcePlan(e', client, o.peer, e.mem.next, payload)
  {
  }

  lemma TargetCreated(e: Engine, e': Engine, client: nat, dst: nat, dstOffset: nat, o: DirectOptions)
    requires Legal(e, ECreatePlan(client, None, Some(dst), dstOffset, o)) && 0 < o.len <= SIZE_MAX
    requires CreatePlan(e, client, None, Some(dst), dstOffset, o) == (e', Reply(Ok, Some(e.mem.next)))
    requires ChosenPath(o, e.clients[client].attached) == SimDirect
    requires ChosenRole(o, e.clients[client].attached, false) == TargetRecv
    ensures e.mem.next in e'.plans && Planned(e, e', e'.plans[e.mem.next])
    ensures TargetPlan(e', client, o.peer, e.mem.next, o.len)
  {
  }

  /** Direct plans created by the two ranks for each other and for the same size match. */
  lemma CreatedPlansMatch(
    e: Engine, e1: Engine, e2: Engine, d: Direction, block: nat, so: DirectOptions, dst: nat, dstOffset: nat,
    to: DirectOptions,
    payload: Bytes)
    requires Inv(e) && d.table == HcommPayload && FifoInv(e, d)
    requires Legal(e, ECreatePlan(d.sender, Some(block), None, 0, so))
    requires Covers(e.blocks[block].payload, so.len, payload) && to.len == |payload|
    requires so.path == SimDirect && so.role == SourceSend && so.peer == e.clients[d.receiver].rank
    requires to.path == SimDirect && to.role == TargetRecv && to.peer == e.clients[d.sender].rank
    requires CreatePlan(e, d.sender, Some(block), None, 0, so) == (e1, Reply(Ok, Some(e.mem.next)))
    requires Legal(e1, ECreatePlan(d.receiver, None, Some(dst), dstOffset, to))
    requires CreatePlan(e1, d.receiver, None, Some(dst), dstOffset, to) == (e2, Reply(Ok, Some(e1.mem.next)))
    ensures Matched(e2, d, e.mem.next, e1.mem.next, payload) && e2.clients == e.clients
  {
    assert Inv(e2) by {
      CreatePlanInv(e, d.sender, Some(block), None, 0, so);
      CreatePlanInv(e1, d.receiver, None, Some(dst), dstOffset, to);
    }
    SourceCreated(e, e1, d.sender, block, so, payload);
    TargetCreated(e1, e2, d.receiver, dst, dstOffset, to);
    BothPlanned(e, e1, e2, d, e1.plans[e.mem.next], e2.plans[e1.mem.next], payload);
  }

  lemma BothPlanned(e: Engine, e1: Engine, e2: Engine, d: Direction, source: Plan, target: Plan, payload: Bytes)
    requires Inv(e2) && d.table == HcommPayload && FifoInv(e, d)
    requires Planned(e, e1, source) && Planned(e1, e2, target)
    requires SourcePlan(e1, d.sender, e.clients[d.receiver].rank, e.mem.next, payload)
    requires TargetPlan(e2, d.receiver, e.clients[d.sender].rank, e1.mem.next, |payload|)
    ensures Matched(e2, d, e.mem.next, e1.mem.next, payload)
  {
  }

  /** The entries that the next submissions go to. */
  lemma NextEntries(e: Engine, d: Direction)
    requires d.table == HcommPayload && Duplex(e.clients, d)
    ensures NextEntry(e, d.sender, SendRole, e.clients[d.receiver].rank, Key(e.clients, d, Sends(e.clients, d)))
    ensures NextEntry(e, d.receiver, RecvRole, e.clients[d.sender].rank, Key(e.clients, d, Recvs(e.clients, d)))
  {
  }

  /** Both plans can be read, in either order and whatever is in flight. */
  lemma ReadsEnabled(e: Engine, d: Direction, s: nat, t: nat, payload: Bytes, afterSource: Engine, afterTarget: Engine)
    requires Matched(e, d, s, t, payload)
    ensures Legal(e, ERead(d.sender, s)) && Legal(e, ERead(d.receiver, t))
    ensures Reads(e, d.sender, s, afterSource) ==> Legal(afterSource, ERead(d.receiver, t))
    ensures Reads(e, d.receiver, t, afterTarget) ==> Legal(afterTarget, ERead(d.sender, s))
  {
    NextEntries(e, d);
    var ks, kr := Key(e.clients, d, Sends(e.clients, d)), Key(e.clients, d, Recvs(e.clients, d));
    SourceReads(e, d.sender, e.clients[d.receiver].rank, s, payload, ks);
    JoinFrame(e, d.sender, SendRole, PairRequest(ks, ByteMeta(|payload|), payload), 0, 0);
    TargetRange(e, t);
    var b, offset := e.plans[t].dst.value, e.plans[t].dstOffset;
    TargetReads(e, d.receiver, e.clients[d.sender].rank, t, |payload|, kr, b);
    JoinFrame(e, d.receiver, RecvRole, PairRequest(kr, ByteMeta(|payload|), Load(e.mem, b, offset, |payload|)), b,
              offset);
  }

  /** Anything may happen between the two reads, other reads and transfers in the direction
      included, except that one of the two ranks attaches again. */
  predicate Between(f: Reducer, e: Engine, events: seq<Event>, e': Engine, d: Direction) {
    && Run(f, e, events, e') && (forall i :: 0 <= i < |events| ==> SameEpoch(events[i], d))
    && Duplex(e.clients, d) && Duplex(e'.clients, d)
  }

  /** What waits in the direction's entry still waits there. */
  lemma EntryStays(f: Reducer, e: Engine, events: seq<Event>, e': Engine, d: Direction, i: nat)
    requires Inv(e) && Between(f, e, events, e', d) && Untaken(e, e', d, i) && Key(e.clients, d, i) in e.work.pairs
    ensures Inv(e') && SameRanks(e, e', d)
    ensures var k := Key(e.clients, d, i); k in e'.work.pairs && e'.work.pairs[k] == e.work.pairs[k]
  {
    RunPasses(f, e, events, e', d);
  }

  /** The target plan is the same plan with the same range. */
  lemma TargetStays(f: Reducer, e: Engine, events: seq<Event>, e': Engine, client: nat, peer: nat, id: nat, bytes: nat)
    requires Inv(e) && Run(f, e, events, e') && TargetPlan(e, client, peer, id, bytes) && id in e'.plans
    ensures Inv(e') && e'.plans[id] == e.plans[id] && TargetPlan(e', client, peer, id, bytes)
  {
    assert PlanValid(e.work.windows, e.plans[id]);
    PlanSurvives(f, e, events, e', id);
  }

  /** The first of two reads that take the same number: its half waits, and goes on waiting
      until the second read. */
  lemma SourceWaits(
    f: Reducer, e: Engine, e1: Engine, events: seq<Event>, e2: Engine, d: Direction, s: nat, t: nat, payload: Bytes)
    requires Matched(e, d, s, t, payload) && Reads(e, d.sender, s, e1)
    requires Between(f, e1, events, e2, d) && Recvs(e2.clients, d) == Sends(e.clients, d)
    ensures Inv(e1) && Inv(e2) && SameRanks(e, e2, d) && e1.plans == e.plans
    ensures var k := Key(e.clients, d, Sends(e.clients, d));
            && k in e2.work.pairs
            && e2.work.pairs[k] == PendingPair(Some(ByteMeta(|payload|)), Some(SendHalf(payload, e.mem.next)), None)
  {
    ReadPasses(e, d, d.sender, s);
    ReadInv(e, d.sender, s);
    RunPasses(f, e1, events, e2, d);
    SourceEnters(e, e1, d, s, t, payload);
    EntryStays(f, e1, events, e2, d, Sends(e.clients, d));
  }

  lemma TargetWaits(
    f: Reducer, e: Engine, e1: Engine, events: seq<Event>, e2: Engine, d: Direction, s: nat, t: nat, payload: Bytes)
    requires Matched(e, d, s, t, payload) && Reads(e, d.receiver, t, e1)
    requires Between(f, e1, events, e2, d) && Sends(e2.clients, d) == Recvs(e.clients, d)
    ensures Inv(e1) && Inv(e2) && SameRanks(e, e2, d) && e1.plans == e.plans
    ensures var k, p := Key(e.clients, d, Recvs(e.clients, d)), e.plans[t];
            && k in e2.work.pairs && p.dst.Some?
            && e2.work.pairs[k] ==
               PendingPair(Some(ByteMeta(|payload|)), None, Some(RecvHalf(p.dst.value, p.dstOffset, e.mem.next)))
  {
    ReadPasses(e, d, d.receiver, t);
    ReadInv(e, d.receiver, t);
    RunPasses(f, e1, events, e2, d);
    TargetEnters(e, e1, d, s, t, payload);
    EntryStays(f, e1, events, e2, d, Recvs(e.clients, d));
  }

  /** A side that is not behind finds the entry of its number free. */
  lemma SourceEnters(e: Engine, e1: Engine, d: Direction, s: nat, t: nat, payload: Bytes)
    requires Matched(e, d, s, t, payload) && Reads(e, d.sender, s, e1) && Passes(e, e1, d)
    requires Recvs(e1.clients, d) <= Sends(e.clients, d)
    ensures e1.plans == e.plans && Sends(e1.clients, d) > Sends(e.clients, d)
    ensures var k := Key(e1.clients, d, Sends(e.clients, d));
            && k == Key(e.clients, d, Sends(e.clients, d)) && k in e1.work.pairs
            && e1.work.pairs[k] == PendingPair(Some(ByteMeta(|payload|)), Some(SendHalf(payload, e.mem.next)), None)
  {
    NextEntries(e, d);
    var k := Key(e.clients, d, Sends(e.clients, d));
    SourceFirst(e, e1, d.sender, e.clients[d.receiver].rank, s, payload, k);
    assert Key(e1.clients, d, Sends(e.clients, d)) == k;
    ReadBacklog(e, d, d.sender, s);
  }

  lemma TargetEnters(e: Engine, e1: Engine, d: Direction, s: nat, t: nat, payload: Bytes)
    requires Matched(e, d, s, t, payload) && Reads(e, d.receiver, t, e1) && Passes(e, e1, d)
    requires Sends(e1.clients, d) <= Recvs(e.clients, d)
    ensures e1.plans == e.plans && Recvs(e1.clients, d) > Recvs(e.clients, d)
    ensures var k, p := Key(e1.clients, d, Recvs(e.clients, d)), e.plans[t];
            && k == Key(e.clients, d, Recvs(e.clients, d)) && k in e1.work.pairs && p.dst.Some?
            && e1.work.pairs[k] ==
               PendingPair(Some(ByteMeta(|payload|)), None, Some(RecvHalf(p.dst.value, p.dstOffset, e.mem.next)))
  {
    NextEntries(e, d);
    var k := Key(e.clients, d, Recvs(e.clients, d));
    TargetFirst(e, e1, d.receiver, e.clients[d.sender].rank, t, |payload|, k);
    assert Key(e1.clients, d, Recvs(e.clients, d)) == k;
    ReadBacklog(e, d, d.receiver, t);
  }

  /** Source first, target later, with the same number: the block, as it was when the source
      was read, lands in the target range, nothing else changes and both IOs succeed. */
  lemma SourceThenTarget(
    f: Reducer, e: Engine, e1: Engine, events: seq<Event>, e2: Engine, d: Direction, s: nat, t: nat, payload: Bytes)
    requires Matched(e, d, s, t, payload) && Reads(e, d.sender, s, e1)
    requires Between(f, e1, events, e2, d) && Recvs(e2.clients, d) == Sends(e.clients, d) && t in e2.plans
    ensures Legal(e2, ERead(d.receiver, t)) && e2.plans[t] == e.plans[t]
    ensures var p, m' := e.plans[t], Read(e2, d.receiver, t).0.mem;
            p.dst.Some? && Delivered(e2.mem, m', p.dst.value, p.dstOffset, payload) &&
            BothDone(m', e.mem.next, e2.mem.next, payload)
  {
    SourceWaits(f, e, e1, events, e2, d, s, t, payload);
    var peer := e.clients[d.sender].rank;
    TargetStays(f, e1, events, e2, d.receiver, peer, t, |payload|);
    NextEntries(e2, d);
    var k := Key(e.clients, d, Sends(e.clients, d));
    TargetLater(e2, d.receiver, peer, t, |payload|, k, SendHalf(payload, e.mem.next));
  }

  lemma TargetLater(e: Engine, client: nat, peer: nat, id: nat, bytes: nat, k: PairKey, send: SendHalf)
    requires Inv(e) && TargetPlan(e, client, peer, id, bytes) && NextEntry(e, client, RecvRole, peer, k)
    requires k in e.work.pairs && e.work.pairs[k] == PendingPair(Some(ByteMeta(bytes)), Some(send), None)
    ensures Legal(e, ERead(client, id))
    ensures var p, m' := e.plans[id], Read(e, client, id).0.mem;
            p.dst.Some? && Delivered(e.mem, m', p.dst.value, p.dstOffset, send.payload) &&
            BothDone(m', send.io, e.mem.next, send.payload)
  {
    TargetRange(e, id);
    TargetReads(e, client, peer, id, bytes, k, e.plans[id].dst.value);
    TargetSecond(e, Read(e, client, id).0, client, peer, id, bytes, k, send);
  }

  /** Target first, source later: the same, with the block as it is when the source is read. */
  lemma TargetThenSource(
    f: Reducer, e: Engine, e1: Engine, events: seq<Event>, e2: Engine, d: Direction, s: nat, t: nat, payload: Bytes)
    requires Matched(e, d, s, t, payload) && Reads(e, d.receiver, t, e1)
    requires Between(f, e1, events, e2, d) && Sends(e2.clients, d) == Recvs(e.clients, d)
    requires SourcePlan(e2, d.sender, e.clients[d.receiver].rank, s, payload)
    ensures Legal(e2, ERead(d.sender, s))
    ensures var p, m' := e.plans[t], Read(e2, d.sender, s).0.mem;
            p.dst.Some? && Delivered(e2.mem, m', p.dst.value, p.dstOffset, payload) &&
            BothDone(m', e.mem.next, e2.mem.next, payload)
  {
    TargetWaits(f, e, e1, events, e2, d, s, t, payload);
    var peer, k := e.clients[d.receiver].rank, Key(e.clients, d, Recvs(e.clients, d));
    NextEntries(e2, d);
    SourceReads(e2, d.sender, peer, s, payload, k);
    var recv := RecvHalf(e.plans[t].dst.value, e.plans[t].dstOffset, e.mem.next);
    SourceSecond(e2, Read(e2, d.sender, s).0, d.sender, peer, s, payload, k, recv);
  }

  /** Host staging puts the same bytes in the same place. */
  lemma StagingDelivers(e: Engine, client: nat, block: Block, dst: nat, dstOffset: nat)
    requires ValidRange(e.mem, dst, dstOffset, |block.payload|)
    requires e.mem.buffers[dst].owner == client && e.mem.buffers[dst].kind == SimHbm && block.client == client
    ensures var r := ReadToHbm(e, client, block, dst, dstOffset);
            Delivered(e.mem, r.0.mem, dst, dstOffset, block.payload) &&
            FinishedWith(r.0.mem, e.mem.next, Ok, |block.payload|, Checksum32(block.payload))
  {
  }

  lemma DeliveredOnce(m: Mem, m1: Mem, m2: Mem, dst: nat, offset: nat, data: Bytes)
    requires Delivered(m, m1, dst, offset, data) && Delivered(m, m2, dst, offset, data)
    ensures SameBytes(m1, m2)
  {
  }

  lemma StagedAlike(e: Engine, m': Mem, client: nat, peer: nat, id: nat, payload: Bytes)
    requires Inv(e) && TargetPlan(e, client, peer, id, |payload|) && e.plans[id].dst.Some?
    requires Delivered(e.mem, m', e.plans[id].dst.value, e.plans[id].dstOffset, payload)
    ensures e.plans[id].dst.value in e.mem.buffers
    ensures var p := e.plans[id];
            SameBytes(ReadToHbm(e, client, Block(client, payload), p.dst.value, p.dstOffset).0.mem, m')
  {
    TargetRange(e, id);
    var p := e.plans[id];
    StagingDelivers(e, client, Block(client, payload), p.dst.value, p.dstOffset);
    var staged := ReadToHbm(e, client, Block(client, payload), p.dst.value, p.dstOffset).0;
    DeliveredOnce(e.mem, staged.mem, m', p.dst.value, p.dstOffset, payload);
  }

  /** The agreement theorem. One of two matching plans is read, then anything happens, other
      transfers in the direction included, then the other plan is read and takes the same
      number: every buffer ends with the bytes that host staging of the block would have left
      at that moment, whichever plan came first. */
  lemma DirectAgreesWithStaging(
    f: Reducer, e: Engine, e1: Engine, events: seq<Event>, e2: Engine, d: Direction, s: nat, t: nat, payload: Bytes,
    sourceFirst: bool)
    requires Matched(e, d, s, t, payload) && Between(f, e1, events, e2, d) && t in e2.plans
    requires if sourceFirst then Reads(e, d.sender, s, e1) && Recvs(e2.clients, d) == Sends(e.clients, d)
             else && Reads(e, d.receiver, t, e1) && Sends(e2.clients, d) == Recvs(e.clients, d)
                  && SourcePlan(e2, d.sender, e.clients[d.receiver].rank, s, payload)
    ensures var second := if sourceFirst then ERead(d.receiver, t) else ERead(d.sender, s);
            var p := e.plans[t];
            && Legal(e2, second) && p.dst.Some? && p.dst.value in e2.mem.buffers
            && SameBytes(ReadToHbm(e2, d.receiver, Block(d.receiver, payload), p.dst.value, p.dstOffset).0.mem,
                         Read(e2, second.client, second.plan).0.mem)
  {
    if sourceFirst {
      SourceWaits(f, e, e1, events, e2, d, s, t, payload);
      SourceThenTarget(f, e, e1, events, e2, d, s, t, payload);
    } else {
      TargetWaits(f, e, e1, events, e2, d, s, t, payload);
      TargetThenSource(f, e, e1, events, e2, d, s, t, payload);
    }
    var peer := e.clients[d.sender].rank;
    TargetStays(f, e1, events, e2, d.receiver, peer, t, |payload|);
    var second := if sourceFirst then ERead(d.receiver, t) else ERead(d.sender, s);
    StagedAlike(e2, Read(e2, second.client, second.plan).0.mem, d.receiver, peer, t, payload);
  }

  /** Staging always copies the whole block. Where the source plan covers only a part of it, the
      two agree exactly if the target already holds the rest. */
  lemma AgreesOnWholeBlock(e: Engine, m': Mem, client: nat, peer: nat, id: nat, payload: Bytes, block: Bytes)
    requires Inv(e) && TargetPlan(e, client, peer, id, |payload|) && e.plans[id].dst.Some? && payload <= block
    requires Delivered(e.mem, m', e.plans[id].dst.value, e.plans[id].dstOffset, payload)
    requires ValidRange(e.mem, e.plans[id].dst.value, e.plans[id].dstOffset, |block|)
    ensures var p := e.plans[id];
            var at := p.dstOffset;
            SameBytes(ReadToHbm(e, client, Block(client, block), p.dst.value, at).0.mem, m') <==>
            e.mem.buffers[p.dst.value].bytes[at + |payload|..at + |block|] == block[|payload|..]
  {
    TargetRange(e, id);
    var p := e.plans[id];
    StagingDelivers(e, client, Block(client, block), p.dst.value, p.dstOffset);
    var staged := ReadToHbm(e, client, Block(client, block), p.dst.value, p.dstOffset).0.mem;
    AgreeExactly(e.mem, staged, m', p.dst.value, p.dstOffset, payload, block);
  }

  lemma AgreeExactly(m: Mem, staged: Mem, sent: Mem, dst: nat, at: nat, part: Bytes, whole: Bytes)
    requires Delivered(m, staged, dst, at, whole) && Delivered(m, sent, dst, at, part) && part <= whole
    ensures SameBytes(staged, sent) <==> m.buffers[dst].bytes[at + |part|..at + |whole|] == whole[|part|..]
  {
    RestDecides(m.buffers[dst].bytes, at, part, whole);
    assert SameBytes(staged, sent) <==> staged.buffers[dst].bytes == sent.buffers[dst].bytes;
  }

  lemma RestDecides(bytes: Bytes, at: nat, part: Bytes, whole: Bytes)
    requires part <= whole && at + |whole| <= |bytes|
    ensures Overwrite(bytes, at, whole) == Overwrite(bytes, at, part) <==>
            bytes[at + |part|..at + |whole|] == whole[|part|..]
  {
    var a, b := Overwrite(bytes, at, whole), Overwrite(bytes, at, part);
    assert a[at..at + |whole|] == whole && b[at..at + |part|] == part;
    forall i | 0 <= i < |bytes|
      ensures a[i] == if at <= i < at + |whole| then whole[i - at] else bytes[i]
      ensures b[i] == if at <= i < at + |part| then part[i - at] else bytes[i]
    {
    }
    var rest := bytes[at + |part|..at + |whole|];
    if rest == whole[|part|..] {
      forall i | at + |part| <= i < at + |whole|
        ensures a[i] == b[i]
      {
        assert bytes[i] == rest[i - at - |part|] == whole[|part|..][i - at - |part|];
      }
      assert a == b;
    }
    if a == b {
      forall j | 0 <= j < |rest|
        ensures rest[j] == whole[|part|..][j]
      {
        assert a[at + |part| + j] == b[at + |part| + j];
      }
    }
  }

  /** The forwarding thread hands the inner outcome to the caller's IO and frees the inner IO. */
  lemma ForwardHandsOver(e: Engine, id: nat)
    requires Inv(e) && Legal(e, EForward(id))
    ensures var t := e.work.tasks[id];
            && t.inner in e.mem.ios && t.inner !in Forward(e, id).mem.ios
            && FinishedWith(Forward(e, id).mem, t.wrapper, e.mem.ios[t.inner].status, e.mem.ios[t.inner].bytes,
                            e.mem.ios[t.inner].checksum)
  {
    TaskHolds(e.mem, e.work, id);
    Forwarded(e, id);
  }

  lemma Forwarded(e: Engine, id: nat)
    requires id in e.work.tasks
    requires var t := e.work.tasks[id];
             && t.inner in e.mem.ios && e.mem.ios[t.inner].done
             && t.wrapper in e.mem.ios && e.mem.ios[t.wrapper].refs == 1 && !e.mem.ios[t.wrapper].done
    ensures var t := e.work.tasks[id];
            && t.inner !in Forward(e, id).mem.ios
            && FinishedWith(Forward(e, id).mem, t.wrapper, e.mem.ios[t.inner].status, e.mem.ios[t.inner].bytes,
                            e.mem.ios[t.inner].checksum)
  {
  }

  lemma TaskHolds(m: Mem, w: Work, id: nat)
    requires CoreInv(m, w) && id in w.tasks
    ensures var t := w.tasks[id];
            t.inner in m.ios && t.wrapper in m.ios && m.ios[t.wrapper].refs == 1 && !m.ios[t.wrapper].done
  {
    HeldReferences(m, w, TaskAt(id), Hold(None, Some(w.tasks[id].wrapper)));
  }
}
