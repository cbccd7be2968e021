/** The engine invariant: balanced references, valid tables, windows, forwarding threads and
    plans, in every state that callers can reach. */
module SimEngineInv {
  import opened Common
  import opened SimState
  import opened SimLedger
  import opened SimCollective
  import opened SimCollectiveInv
  import opened SimArrive
  import opened SimPair
  import opened SimEngine

  // ---------------------------------------------------------------------------
  // The invariant

  predicate WindowValid(m: Mem, w: Window) {
    && ValidRange(m, w.buffer, w.offset, w.len) && w.len > 0
    && m.buffers[w.buffer].owner == w.client && m.buffers[w.buffer].kind == SimHbm
  }

  predicate WindowsValid(m: Mem, windows: map<nat, Window>) {
    forall i :: i in windows ==> i < m.next && WindowValid(m, windows[i])
  }

  /** Each forwarding thread has an inner IO of its own. */
  predicate TasksValid(m: Mem, tasks: map<nat, Task>) {
    && (forall t :: t in tasks ==> t < m.next && tasks[t].inner in m.ios)
    && (forall t, u :: t in tasks && u in tasks && tasks[t].inner == tasks[u].inner ==> t == u)
  }

  predicate WorkersValid(m: Mem, workers: map<nat, Worker>) {
    forall k :: k in workers ==> k < m.next
  }

  /** The part of the invariant that is about memory and waiting work. */
  ghost predicate CoreInv(m: Mem, w: Work) {
    && Balanced(m, w) && CollsValid(m, w) && PairsValid(m, w)
    && WindowsValid(m, w.windows) && TasksValid(m, w.tasks) && WorkersValid(m, w.workers)
  }

  /** A direct receive plan stays inside its window; a plan that promised not to stage
      through the host does not. */
  predicate PlanValid(windows: map<nat, Window>, p: Plan) {
    && (p.window.Some? ==> p.window.value in windows)
    && (p.path == HostStaging ==> p.role == StagingRole && p.allowStaging && !p.requireDirect)
    && (p.path == SimDirect ==> p.role == SourceSend || p.role == TargetRecv)
    && (p.path == SimDirect && p.role == TargetRecv ==>
          && p.window.Some? && p.bytes > 0
          && var w := windows[p.window.value];
             && p.dst == Some(w.buffer) && w.client == p.client
             && w.offset <= p.dstOffset && p.dstOffset + p.bytes <= w.offset + w.len)
  }

  function PlansOn(plans: map<nat, Plan>, w: nat): set<nat> {
    set p | p in plans && plans[p].window == Some(w)
  }

  predicate PlansInv(plans: map<nat, Plan>, windows: map<nat, Window>, next: nat) {
    && (forall p :: p in plans ==> p < next && PlanValid(windows, plans[p]))
    && (forall w :: w in windows ==> windows[w].planRefs == |PlansOn(plans, w)|)
  }

  predicate ClientsInv(clients: map<nat, Client>) {
    forall c :: c in clients && clients[c].attached ==> clients[c].rank < clients[c].size
  }

  ghost predicate Inv(e: Engine) {
    && CoreInv(e.mem, e.work) && PlansInv(e.plans, e.work.windows, e.mem.next) && ClientsInv(e.clients)
  }

  // ---------------------------------------------------------------------------
  // Frames

  /** Buffers that some slot holds keep their shape. */
  ghost predicate HeldShape(m: Mem, w: Work, m': Mem) {
    forall s, b :: HoldsBuffer(w, s, b) ==>
      && b in m.buffers && b in m'.buffers
      && m'.buffers[b].owner == m.buffers[b].owner && m'.buffers[b].kind == m.buffers[b].kind
      && |m'.buffers[b].bytes| == |m.buffers[b].bytes|
  }

  lemma ShapeHeld(m: Mem, w: Work, m': Mem)
    requires Anchored(m, w) && SameShape(m, m')
    ensures HeldShape(m, w, m')
  {
  }

  lemma CollsHeld(m: Mem, w: Work, m': Mem)
    requires CollsValid(m, w) && HeldShape(m, w, m')
    ensures CollsValid(m', w)
  {
    forall k | k in w.colls
      ensures EntryValid(m', k, w.colls[k]) && w.colls[k].arrivals < k.size
    {
      var e := w.colls[k];
      assert EntryValid(m, k, e);
      forall r | 0 <= r < |e.slots| && e.slots[r].Some?
        ensures SlotValid(m', e.params, e.slots[r].value)
      {
        assert SlotValid(m, e.params, e.slots[r].value);
        assert HoldsBuffer(w, CollAt(k, r), e.slots[r].value.dst);
      }
    }
  }

  lemma PairsHeld(m: Mem, w: Work, m': Mem)
    requires PairsValid(m, w) && HeldShape(m, w, m')
    ensures PairsValid(m', w)
  {
    forall k | k in w.pairs
      ensures PairValid(m', w.pairs[k])
    {
      var e := w.pairs[k];
      assert PairValid(m, e);
      if e.recv.Some? {
        assert HoldsBuffer(w, RecvAt(k), e.recv.value.dst);
      }
    }
  }

  lemma WindowsHeld(m: Mem, w: Work, m': Mem)
    requires WindowsValid(m, w.windows) && HeldShape(m, w, m') && m.next <= m'.next
    ensures WindowsValid(m', w.windows)
  {
    forall i | i in w.windows
      ensures i < m'.next && WindowValid(m', w.windows[i])
    {
      assert WindowValid(m, w.windows[i]);
      assert HoldsBuffer(w, WindowAt(i), w.windows[i].buffer);
    }
  }

  predicate TasksKept(m: Mem, m': Mem, tasks: map<nat, Task>) {
    m.next <= m'.next && forall t :: t in tasks ==> tasks[t].inner in m'.ios
  }

  lemma TasksHeld(m: Mem, m': Mem, tasks: map<nat, Task>)
    requires TasksValid(m, tasks) && TasksKept(m, m', tasks)
    ensures TasksValid(m', tasks)
  {
  }

  /** The tables stay valid when held buffers and inner IOs stay. */
  lemma TablesHeld(m: Mem, w: Work, m': Mem)
    requires CoreInv(m, w) && HeldShape(m, w, m') && TasksKept(m, m', w.tasks) && Balanced(m', w)
    ensures CoreInv(m', w)
  {
    CollsHeld(m, w, m');
    PairsHeld(m, w, m');
    WindowsHeld(m, w, m');
    TasksHeld(m, m', w.tasks);
  }

  /** Only memory changes, and no reference does. */
  lemma QuietCore(m: Mem, w: Work, m': Mem)
    requires CoreInv(m, w) && Quiescent(m, m') && HeldShape(m, w, m') && TasksKept(m, m', w.tasks)
    ensures CoreInv(m', w)
  {
    BalanceSame(m, w, m', w);
    TablesHeld(m, w, m');
  }

  // ---------------------------------------------------------------------------
  // Which IO handles exist

  lemma FailSlotIos(c: Core, k: CollKey, r: nat, status: Status)
    ensures FailSlot(c, k, r, status).mem.ios.Keys == c.mem.ios.Keys
  {
  }

  lemma CompleteSlotIos(c: Core, k: CollKey, r: nat, out: Bytes)
    ensures CompleteSlot(c, k, r, out).mem.ios.Keys == c.mem.ios.Keys
  {
  }

  lemma FailCollIos(c: Core, k: CollKey, status: Status)
    ensures FailColl(c, k, status).mem.ios.Keys == c.mem.ios.Keys
  {
    if k in c.work.colls {
      forall b: Core, r: nat | b.mem.ios.Keys == c.mem.ios.Keys
        ensures FailSlot(b, k, r, status).mem.ios.Keys == c.mem.ios.Keys
      {
        FailSlotIos(b, k, r, status);
      }
      FailRanksKeeps((b: Core, r: nat) => b.mem.ios.Keys == c.mem.ios.Keys, c, k, |c.work.colls[k].slots|, status);
    }
  }

  lemma CompleteRanksIos(c: Core, k: CollKey, n: nat, out: Bytes)
    ensures CompleteRanks(c, k, n, out).mem.ios.Keys == c.mem.ios.Keys
  {
    forall b: Core, r: nat | b.mem.ios.Keys == c.mem.ios.Keys
      ensures CompleteSlot(b, k, r, out).mem.ios.Keys == c.mem.ios.Keys
    {
      CompleteSlotIos(b, k, r, out);
    }
    CompleteRanksKeeps((b: Core, r: nat) => b.mem.ios.Keys == c.mem.ios.Keys, c, k, n, out);
  }

  lemma FinishCollIos(f: Reducer, c: Core, k: CollKey)
    ensures FinishColl(f, c, k).mem.ios.Keys == c.mem.ios.Keys
  {
    if k in c.work.colls && |c.work.colls[k].slots| > 0 {
      var e := c.work.colls[k];
      FailCollIos(c, k, Unsupported);
      match Output(f, k.kind, e.params, Payloads(e))
      case None =>
      case Some(out) => CompleteRanksIos(c, k, |e.slots|, out);
    }
  }

  lemma ArriveIos(f: Reducer, c: Core, k: CollKey, p: CollParams, rank: nat, payload: Bytes, dst: nat, offset: nat)
    ensures Arrive(f, c, k, p, rank, payload, dst, offset).mem.ios.Keys == c.mem.ios.Keys + {c.mem.next}
  {
    var e := EntryOr(c.work, k, p);
    if e.params != p || rank >= |e.slots| || e.slots[rank].Some? {
      FailCollIos(c, k, InvalidArgument);
      FailCollNext(c, k, InvalidArgument);
    } else {
      var slot := CollSlot(payload, dst, offset, c.mem.next);
      var e' := PendingColl(p, e.slots[rank := Some(slot)], e.arrivals + 1);
      FinishCollIos(f, Core(Booked(c.mem, dst), c.work.(colls := c.work.colls[k := e'])), k);
    }
  }

  lemma FailCollNext(c: Core, k: CollKey, status: Status)
    ensures FailColl(c, k, status).mem.next == c.mem.next
  {
    if k in c.work.colls {
      FailRanksKeeps((b: Core, r: nat) => b.mem.next == c.mem.next, c, k, |c.work.colls[k].slots|, status);
    }
  }

  lemma FailPairIos(c: Core, k: PairKey, status: Status)
    ensures FailPair(c, k, status).mem.ios.Keys == c.mem.ios.Keys && FailPair(c, k, status).mem.next == c.mem.next
  {
    if k in c.work.pairs {
      var e := c.work.pairs[k];
      var m1 := if e.recv.Some? then ReleaseBuffer(c.mem, e.recv.value.dst) else c.mem;
      assert m1.ios == c.mem.ios && m1.next == c.mem.next;
      var m2 := if e.send.Some? then FinishIo(m1, e.send.value.io, status, 0, 0) else m1;
      assert m2.ios.Keys == c.mem.ios.Keys && m2.next == c.mem.next;
    }
  }

  lemma FinishPairIos(c: Core, k: PairKey)
    ensures FinishPair(c, k).mem.ios.Keys == c.mem.ios.Keys
  {
    if k in c.work.pairs && c.work.pairs[k].send.Some? && c.work.pairs[k].recv.Some? {
      var send, recv := c.work.pairs[k].send.value, c.work.pairs[k].recv.value;
      var m1 := ReleaseBuffer(Store(c.mem, recv.dst, recv.offset, send.payload), recv.dst);
      assert m1.ios == c.mem.ios;
    }
  }

  lemma MeetIos(c: Core, k: PairKey, role: PairRole, meta: PairMeta, payload: Bytes, dst: nat, offset: nat)
    ensures Meet(c, k, role, meta, payload, dst, offset).mem.ios.Keys == c.mem.ios.Keys + {c.mem.next}
  {
    FailPairIos(c, k, InvalidArgument);
    var e := PairOr(c.work, k);
    var io := c.mem.next;
    match role
    case SendRole =>
      FinishPairIos(Core(NewIo(c.mem, PendingIo()),
                         SetPair(c.work, k, e.(meta := Some(meta), send := Some(SendHalf(payload, io))))), k);
    case RecvRole =>
      FinishPairIos(Core(Booked(c.mem, dst),
                         SetPair(c.work, k, e.(meta := Some(meta), recv := Some(RecvHalf(dst, offset, io))))), k);
  }

  // ---------------------------------------------------------------------------
  // Submissions

  lemma WindowsShape(m: Mem, m': Mem, windows: map<nat, Window>)
    requires WindowsValid(m, windows) && SameShape(m, m') && m.next <= m'.next
    ensures WindowsValid(m', windows)
  {
    forall i | i in windows
      ensures i < m'.next && WindowValid(m', windows[i])
    {
      assert WindowValid(m, windows[i]);
    }
  }

  lemma CollCore(c: Core, c': Core, k: CollKey)
    requires CoreInv(c.mem, c.work) && ArrivalKept(c, c', k)
    requires c'.mem.ios.Keys == c.mem.ios.Keys + {c.mem.next}
    ensures CoreInv(c'.mem, c'.work)
  {
    PairsShape(c.mem, c.work, c'.mem, c'.work);
    WindowsShape(c.mem, c'.mem, c.work.windows);
    TasksHeld(c.mem, c'.mem, c.work.tasks);
  }

  lemma PairCore(c: Core, c': Core, k: PairKey)
    requires CoreInv(c.mem, c.work) && PairKept(c, c', k) && c'.mem.next == c.mem.next + 1
    requires c'.mem.ios.Keys == c.mem.ios.Keys + {c.mem.next}
    ensures CoreInv(c'.mem, c'.work)
  {
    AllCollsShape(c.mem, c.work, c'.mem, c'.work);
    WindowsShape(c.mem, c'.mem, c.work.windows);
    TasksHeld(c.mem, c'.mem, c.work.tasks);
  }

  lemma ArriveCore(f: Reducer, c: Core, k: CollKey, p: CollParams, rank: nat, payload: Bytes, dst: nat, offset: nat)
    requires CoreInv(c.mem, c.work) && ArrivalOk(c.mem, k, p, rank, payload, dst, offset)
    ensures var c' := Arrive(f, c, k, p, rank, payload, dst, offset);
            && CoreInv(c'.mem, c'.work) && c'.work.windows == c.work.windows && c'.mem.next == c.mem.next + 1
            && c.mem.next in c'.mem.ios
  {
    ArriveKeeps(f, c, k, p, rank, payload, dst, offset);
    ArriveIos(f, c, k, p, rank, payload, dst, offset);
    CollCore(c, Arrive(f, c, k, p, rank, payload, dst, offset), k);
  }

  lemma MeetCore(c: Core, k: PairKey, role: PairRole, meta: PairMeta, payload: Bytes, dst: nat, offset: nat)
    requires CoreInv(c.mem, c.work) && MeetOk(c.mem, role, meta, payload, dst, offset)
    ensures var c' := Meet(c, k, role, meta, payload, dst, offset);
            && CoreInv(c'.mem, c'.work) && c'.work.windows == c.work.windows && c'.work.tasks == c.work.tasks
            && c'.mem.next == c.mem.next + 1 && c.mem.next in c'.mem.ios
  {
    MeetKeeps(c, k, role, meta, payload, dst, offset);
    MeetIos(c, k, role, meta, payload, dst, offset);
    PairCore(c, Meet(c, k, role, meta, payload, dst, offset), k);
  }

  /** Everything but memory, work and one client's counters is as before. */
  predicate SameOwners(e: Engine, e': Engine) {
    && e'.work.windows == e.work.windows && e'.plans == e.plans && e.mem.next <= e'.mem.next
    && e'.clients.Keys == e.clients.Keys
    && forall c :: c in e.clients ==>
         e'.clients[c].attached == e.clients[c].attached && e'.clients[c].rank == e.clients[c].rank &&
         e'.clients[c].size == e.clients[c].size && e'.clients[c].comm == e.clients[c].comm
  }

  lemma OwnersKeep(e: Engine, e': Engine)
    requires Inv(e) && SameOwners(e, e') && CoreInv(e'.mem, e'.work)
    ensures Inv(e')
  {
  }

  lemma CompletedInv(e: Engine, status: Status, bytes: nat, checksum: bv32)
    requires Inv(e)
    ensures var r := Completed(e, status, bytes, checksum);
            Inv(r.0) && SameOwners(e, r.0) && r.0.work == e.work && r.1.handle == Some(e.mem.next) &&
              e.mem.next in r.0.mem.ios
  {
    var r := Completed(e, status, bytes, checksum);
    ShapeHeld(e.mem, e.work, r.0.mem);
    QuietCore(e.mem, e.work, r.0.mem);
  }

  lemma DecidedArrival(
    c: Client, m: Mem, kind: CollKind, dst: nat, dstOffset: nat, src: nat, srcOffset: nat,
    count: nat, dtype: DataType, op: ReduceOp)
    requires dst in m.buffers && src in m.buffers && (c.attached ==> c.rank < c.size)
    ensures var d := DecideCollective(c, m, kind, dst, dstOffset, src, srcOffset, count, dtype, op);
            d.Join? ==> ArrivalOk(m, d.request.key, d.request.params, c.rank, d.request.payload, dst, dstOffset)
  {
  }

  lemma SubmitCollectiveInv(
    f: Reducer, e: Engine, client: nat, kind: CollKind, dst: nat, dstOffset: nat, src: nat, srcOffset: nat,
    count: nat, dtype: DataType, op: ReduceOp)
    requires Inv(e) && client in e.clients && dst in e.mem.buffers && src in e.mem.buffers
    ensures Inv(SubmitCollective(f, e, client, kind, dst, dstOffset, src, srcOffset, count, dtype, op).0)
  {
    DecidedArrival(e.clients[client], e.mem, kind, dst, dstOffset, src, srcOffset, count, dtype, op);
    var e' := SubmitCollective(f, e, client, kind, dst, dstOffset, src, srcOffset, count, dtype, op).0;
    match DecideCollective(e.clients[client], e.mem, kind, dst, dstOffset, src, srcOffset, count, dtype, op)
    case Reject(status) =>
    case Complete(status) =>
      assert e' == Completed(e, status, 0, 0).0;
      CompletedInv(e, status, 0, 0);
    case Join(q) =>
      assert e' == JoinCollective(f, e, client, q, dst, dstOffset).0;
      ArrivalInv(f, e, client, q, dst, dstOffset);
  }

  lemma ArrivalInv(f: Reducer, e: Engine, client: nat, q: CollRequest, dst: nat, offset: nat)
    requires Inv(e) && client in e.clients
    requires ArrivalOk(e.mem, q.key, q.params, e.clients[client].rank, q.payload, dst, offset)
    ensures Inv(JoinCollective(f, e, client, q, dst, offset).0)
  {
    ArriveCore(f, CoreOf(e), q.key, q.params, e.clients[client].rank, q.payload, dst, offset);
    OwnersKeep(e, JoinCollective(f, e, client, q, dst, offset).0);
  }

  /** What a submission leaves for a wrapper to wait on. */
  ghost predicate Submitted(e: Engine, r: (Engine, Reply)) {
    && Inv(r.0) && SameOwners(e, r.0) && r.0.work.tasks == e.work.tasks
    && (r.1.handle.Some? ==> r.1.handle == Some(e.mem.next) && e.mem.next in r.0.mem.ios)
  }

  lemma MeetingInv(e: Engine, client: nat, role: PairRole, q: PairRequest, dst: nat, offset: nat)
    requires Inv(e) && client in e.clients && MeetOk(e.mem, role, q.meta, q.payload, dst, offset)
    ensures Submitted(e, JoinTransfer(e, client, role, q, dst, offset))
  {
    MeetCore(CoreOf(e), q.key, role, q.meta, q.payload, dst, offset);
    OwnersKeep(e, JoinTransfer(e, client, role, q, dst, offset).0);
  }

  lemma DecidedMeeting(
    c: Client, m: Mem, client: nat, table: PairTable, role: PairRole, buffer: Buffer, handle: nat, offset: nat,
    count: nat, dtype: DataType, peer: nat)
    requires role == RecvRole ==> handle in m.buffers && m.buffers[handle] == buffer
    ensures var d := DecideTransfer(c, client, table, role, buffer, offset, count, dtype, peer);
            d.Join? ==> MeetOk(m, role, d.request.meta, d.request.payload, handle, offset)
  {
  }

  lemma SubmitTransferInv(
    e: Engine, client: nat, table: PairTable, role: PairRole, buffer: Buffer, handle: nat, offset: nat,
    count: nat, dtype: DataType, peer: nat)
    requires Inv(e) && client in e.clients
    requires role == RecvRole ==> handle in e.mem.buffers && e.mem.buffers[handle] == buffer
    ensures Submitted(e, SubmitTransfer(e, client, table, role, buffer, handle, offset, count, dtype, peer))
  {
    DecidedMeeting(e.clients[client], e.mem, client, table, role, buffer, handle, offset, count, dtype, peer);
    var r := SubmitTransfer(e, client, table, role, buffer, handle, offset, count, dtype, peer);
    match DecideTransfer(e.clients[client], client, table, role, buffer, offset, count, dtype, peer)
    case Reject(status) => assert r == Rejected(e, status);
    case Complete(status) => CompletedInv(e, status, 0, 0);
    case Join(q) =>
      assert r == JoinTransfer(e, client, role, q, handle, offset);
      MeetingInv(e, client, role, q, handle, offset);
  }
}
