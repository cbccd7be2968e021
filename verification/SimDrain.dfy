/** When a plan keeps its destination alive. A plan's window pins the buffer it names; anything
    else that holds a buffer can be made to let go by other calls while the plan lives on. */
module SimDrain {
  import opened Common
  import opened SimState
  import opened SimLedger
  import opened SimCollective
  import opened SimCollectiveInv
  import opened SimArrive
  import opened SimPair
  import opened SimEngine
  import opened SimEngineInv
  import opened SimRuns
  import opened SimSafety
  import opened SimFifo
  import opened SimMatching

  // ---------------------------------------------------------------------------
  // Reachability

  ghost predicate Reaches(f: Reducer, e: Engine, e': Engine) { exists events :: Run(f, e, events, e') }

  lemma {:induction false} RunAppend(f: Reducer, a: Engine, first: seq<Event>, b: Engine, second: seq<Event>, c: Engine)
    requires Run(f, a, first, b) && Run(f, b, second, c)
    ensures Run(f, a, first + second, c)
    decreases |first|
  {
    if first == [] {
      assert first + second == second;
    } else {
      assert (first + second)[0] == first[0] && (first + second)[1..] == first[1..] + second;
      RunAppend(f, Step(f, a, first[0]).0, first[1..], b, second, c);
    }
  }

  lemma ReachesThen(f: Reducer, a: Engine, b: Engine, c: Engine)
    requires Reaches(f, a, b) && Reaches(f, b, c)
    ensures Reaches(f, a, c)
  {
    var first :| Run(f, a, first, b);
    var second :| Run(f, b, second, c);
    RunAppend(f, a, first, b, second, c);
  }

  lemma ReachesSelf(f: Reducer, e: Engine)
    ensures Reaches(f, e, e)
  {
    assert Run(f, e, [], e);
  }

  lemma ReachesStep(f: Reducer, e: Engine, ev: Event)
    requires Legal(e, ev)
    ensures Reaches(f, e, Step(f, e, ev).0)
  {
    var e' := Step(f, e, ev).0;
    assert [ev][1..] == [];
    assert Run(f, e', [ev][1..], e');
    assert Run(f, e, [ev], e');
  }

  // ---------------------------------------------------------------------------
  // Keys in the tables come from attached clients

  predicate PairKeyOk(k: PairKey) {
    && k.comm != "" && k.src < k.size && k.dst < k.size && k.src != k.dst
    && (k.table == HcommPayload ==> k.size == 2)
  }

  predicate CollKeyOk(k: CollKey, p: CollParams) {
    k.comm != "" && k.size > 0 && p.inBytes > 0 && p.outBytes <= SIZE_MAX
  }

  predicate ClientOk(c: Client) { c.attached ==> c.comm != "" && c.rank < c.size }

  predicate KeysOk(clients: map<nat, Client>, w: Work) {
    && (forall c :: c in clients ==> ClientOk(clients[c]))
    && (forall k :: k in w.pairs ==> PairKeyOk(k))
    && (forall k :: k in w.colls ==> CollKeyOk(k, w.colls[k].params))
  }

  lemma PairsMoveKeys(clients: map<nat, Client>, w: Work, clients': map<nat, Client>, w': Work, k: PairKey)
    requires KeysOk(clients, w) && PairKeyOk(k) && SaveFor(w, w', k)
    requires forall c :: c in clients' ==> ClientOk(clients'[c])
    ensures KeysOk(clients', w')
  {
    forall j | j in w'.pairs
      ensures PairKeyOk(j)
    {
      if j != k {
        assert j in w'.pairs - {k};
        assert j in w.pairs;
      }
    }
  }

  lemma CollsMoveKeys(clients: map<nat, Client>, w: Work, clients': map<nat, Client>, w': Work, k: CollKey)
    requires KeysOk(clients, w) && w'.pairs == w.pairs && OtherColls(w, w', k)
    requires k in w'.colls ==> CollKeyOk(k, w'.colls[k].params)
    requires forall c :: c in clients' ==> ClientOk(clients'[c])
    ensures KeysOk(clients', w')
  {
    forall j | j in w'.colls
      ensures CollKeyOk(j, w'.colls[j].params)
    {
      if j != k {
        assert j in w'.colls - {k} && (w'.colls - {k})[j] == w'.colls[j];
        assert j in w.colls && w.colls[j] == w'.colls[j];
      }
    }
  }

  lemma DecidedKey(
    c: Client, client: nat, table: PairTable, role: PairRole, buffer: Buffer, offset: nat, count: nat, dtype: DataType,
    peer: nat)
    requires ClientOk(c)
    ensures var d := DecideTransfer(c, client, table, role, buffer, offset, count, dtype, peer);
            d.Join? ==> PairKeyOk(d.request.key)
  {
  }

  lemma TransferKeys(
    e: Engine, client: nat, table: PairTable, role: PairRole, buffer: Buffer, handle: nat, offset: nat,
    count: nat, dtype: DataType, peer: nat)
    requires Inv(e) && KeysOk(e.clients, e.work) && client in e.clients
    requires role == RecvRole ==> handle in e.mem.buffers && e.mem.buffers[handle] == buffer
    ensures var e' := SubmitTransfer(e, client, table, role, buffer, handle, offset, count, dtype, peer).0;
            KeysOk(e'.clients, e'.work)
  {
    var e' := SubmitTransfer(e, client, table, role, buffer, handle, offset, count, dtype, peer).0;
    DecidedKey(e.clients[client], client, table, role, buffer, offset, count, dtype, peer);
    DecidedMeeting(e.clients[client], e.mem, client, table, role, buffer, handle, offset, count, dtype, peer);
    match DecideTransfer(e.clients[client], client, table, role, buffer, offset, count, dtype, peer)
    case Reject(_) => assert e' == e;
    case Complete(_) => assert e'.clients == e.clients && e'.work == e.work;
    case Join(q) =>
      assert e' == JoinTransfer(e, client, role, q, handle, offset).0;
      JoinKeys(e, client, role, q, handle, offset);
  }

  lemma JoinKeys(e: Engine, client: nat, role: PairRole, q: PairRequest, handle: nat, offset: nat)
    requires Inv(e) && KeysOk(e.clients, e.work) && client in e.clients && PairKeyOk(q.key)
    requires MeetOk(e.mem, role, q.meta, q.payload, handle, offset)
    ensures var e' := JoinTransfer(e, client, role, q, handle, offset).0; KeysOk(e'.clients, e'.work)
  {
    var e' := JoinTransfer(e, client, role, q, handle, offset).0;
    assert SaveFor(e.work, e'.work, q.key) by {
      MeetKeeps(CoreOf(e), q.key, role, q.meta, q.payload, handle, offset);
    }
    assert forall c :: c in e'.clients ==> ClientOk(e'.clients[c]);
    PairsMoveKeys(e.clients, e.work, e'.clients, e'.work, q.key);
  }

  lemma ArrivedParams(f: Reducer, c: Core, k: CollKey, p: CollParams, rank: nat, payload: Bytes, dst: nat, offset: nat)
    requires Balanced(c.mem, c.work) && CollsValid(c.mem, c.work) && ArrivalOk(c.mem, k, p, rank, payload, dst, offset)
    ensures var w' := Arrive(f, c, k, p, rank, payload, dst, offset).work; k in w'.colls ==> w'.colls[k].params == p
  {
    var e := EntryOr(c.work, k, p);
    if e.params != p || rank >= |e.slots| || e.slots[rank].Some? {
      RejectKeeps(c, k);
    } else {
      ArriveTable(f, c, k, p, rank, CollSlot(payload, dst, offset, c.mem.next));
    }
  }

  lemma DecidedCollKey(
    c: Client, m: Mem, kind: CollKind, dst: nat, dstOffset: nat, src: nat, srcOffset: nat, count: nat, dtype: DataType,
    op: ReduceOp)
    requires ClientOk(c) && dst in m.buffers && src in m.buffers
    ensures var d := DecideCollective(c, m, kind, dst, dstOffset, src, srcOffset, count, dtype, op);
            d.Join? ==> CollKeyOk(d.request.key, d.request.params)
  {
    if CheckedBytes(count, dtype).Some? {
      assert CheckedBytes(count, dtype).value > 0 by {
        assert count * Width(dtype) >= Width(dtype) by { assert (count - 1) * Width(dtype) >= 0; }
      }
    }
  }

  lemma CollectiveKeys(
    f: Reducer, e: Engine, client: nat, kind: CollKind, dst: nat, dstOffset: nat, src: nat, srcOffset: nat,
    count: nat, dtype: DataType, op: ReduceOp)
    requires Inv(e) && KeysOk(e.clients, e.work) && client in e.clients && dst in e.mem.buffers && src in e.mem.buffers
    ensures var e' := SubmitCollective(f, e, client, kind, dst, dstOffset, src, srcOffset, count, dtype, op).0;
            KeysOk(e'.clients, e'.work)
  {
    var e' := SubmitCollective(f, e, client, kind, dst, dstOffset, src, srcOffset, count, dtype, op).0;
    DecidedArrival(e.clients[client], e.mem, kind, dst, dstOffset, src, srcOffset, count, dtype, op);
    DecidedCollKey(e.clients[client], e.mem, kind, dst, dstOffset, src, srcOffset, count, dtype, op);
    match DecideCollective(e.clients[client], e.mem, kind, dst, dstOffset, src, srcOffset, count, dtype, op)
    case Reject(_) => assert e' == e;
    case Complete(_) => assert e'.clients == e.clients && e'.work == e.work;
    case Join(q) =>
      assert e' == JoinCollective(f, e, client, q, dst, dstOffset).0;
      ArrivalKeys(f, e, client, q, dst, dstOffset);
  }

  lemma ArrivalKeys(f: Reducer, e: Engine, client: nat, q: CollRequest, dst: nat, offset: nat)
    requires Inv(e) && KeysOk(e.clients, e.work) && client in e.clients && CollKeyOk(q.key, q.params)
    requires ArrivalOk(e.mem, q.key, q.params, e.clients[client].rank, q.payload, dst, offset)
    ensures var e' := JoinCollective(f, e, client, q, dst, offset).0; KeysOk(e'.clients, e'.work)
  {
    var c' := Arrive(f, CoreOf(e), q.key, q.params, e.clients[client].rank, q.payload, dst, offset);
    var e' := JoinCollective(f, e, client, q, dst, offset).0;
    assert e' == WithCore(Advance(e, client, CollCounter(q.key.kind)), c');
    assert c'.work.pairs == e.work.pairs && OtherColls(e.work, c'.work, q.key) by {
      ArriveKeeps(f, CoreOf(e), q.key, q.params, e.clients[client].rank, q.payload, dst, offset);
    }
    ArrivedParams(f, CoreOf(e), q.key, q.params, e.clients[client].rank, q.payload, dst, offset);
    CollsMoveKeys(e.clients, e.work, e'.clients, c'.work, q.key);
  }

  lemma ReadKeys(e: Engine, client: nat, id: nat)
    requires Inv(e) && KeysOk(e.clients, e.work) && Legal(e, ERead(client, id))
    ensures var e' := Read(e, client, id).0; KeysOk(e'.clients, e'.work)
  {
    var p := e.plans[id];
    var r := Read(e, client, id);
    if p.client == client && p.path == SimDirect && p.role == SourceSend {
      var b := Buffer(client, e.blocks[p.block.value].payload, SimHbm, 0);
      assert r == Wrap(SubmitTransfer(e, client, HcommPayload, SendRole, b, 0, 0, p.bytes, UInt8, p.peer));
      TransferKeys(e, client, HcommPayload, SendRole, b, 0, 0, p.bytes, UInt8, p.peer);
    } else if p.client == client && p.path == SimDirect && p.role == TargetRecv {
      TargetAlive(e, id);
      var b := p.dst.value;
      assert r == Wrap(SubmitTransfer(e, client, HcommPayload, RecvRole, e.mem.buffers[b], b, p.dstOffset, p.bytes,
                                      UInt8, p.peer));
      TransferKeys(e, client, HcommPayload, RecvRole, e.mem.buffers[b], b, p.dstOffset, p.bytes, UInt8, p.peer);
    } else {
      StagedQueues(e, client, id);
      StagedColls(e, client, id);
    }
  }

  lemma StepKeys(f: Reducer, e: Engine, ev: Event)
    requires Inv(e) && KeysOk(e.clients, e.work) && Legal(e, ev)
    ensures var e' := Step(f, e, ev).0; KeysOk(e'.clients, e'.work)
  {
    if ev.ECollective? {
      CollectiveKeys(f, e, ev.client, ev.coll, ev.dst, ev.dstOffset, ev.src, ev.srcOffset, ev.count, ev.dtype, ev.op);
    } else if ev.ETransfer? {
      TransferKeys(e, ev.client, ev.table, ev.role, e.mem.buffers[ev.buffer], ev.buffer, ev.offset, ev.count, ev.dtype,
                   ev.peer);
    } else if ev.ERead? {
      ReadKeys(e, ev.client, ev.plan);
    } else if !ev.EAttach? && !ev.EOpen? {
      QuietQueues(f, e, ev);
      QuietColls(f, e, ev);
    }
  }

  lemma {:induction false} RunKeys(f: Reducer, e: Engine, events: seq<Event>, e': Engine)
    requires Inv(e) && KeysOk(e.clients, e.work) && Run(f, e, events, e')
    ensures Inv(e') && KeysOk(e'.clients, e'.work)
    decreases |events|
  {
    if events != [] {
      StepInv(f, e, events[0]);
      StepKeys(f, e, events[0]);
      RunKeys(f, Step(f, e, events[0]).0, events[1..], e');
    }
  }

  // ---------------------------------------------------------------------------
  // What draining keeps

  /** From `e0` to `e` the plan has lived on and nobody new has come to hold the buffer. */
  ghost predicate Still(e0: Engine, e: Engine, id: nat, b: nat) {
    && Inv(e) && KeysOk(e.clients, e.work)
    && id in e0.plans && id in e.plans && e.plans[id] == e0.plans[id] && b in e.mem.buffers
    && BufferHolders(e.work, b) <= BufferHolders(e0.work, b)
  }

  lemma StillThen(a: Engine, b: Engine, c: Engine, id: nat, buffer: nat)
    requires Still(a, b, id, buffer) && Still(b, c, id, buffer)
    ensures Still(a, c, id, buffer)
  {
  }

  lemma FewerHolders(w: Work, w': Work, b: nat)
    requires forall s :: HoldsBuffer(w', s, b) ==> HoldsBuffer(w, s, b)
    ensures BufferHolders(w', b) <= BufferHolders(w, b)
  {
    forall s | s in BufferHolders(w', b)
      ensures s in BufferHolders(w, b)
    {
      BufferHolder(w', s, b);
      BufferHolder(w, s, b);
    }
  }

  /** A legal step that leaves the plan and the buffer there and adds no holder. */
  lemma StillStep(f: Reducer, e: Engine, ev: Event, e': Engine, id: nat, b: nat)
    requires Inv(e) && KeysOk(e.clients, e.work) && Legal(e, ev) && e' == Step(f, e, ev).0
    requires id in e.plans && id in e'.plans && b in e'.mem.buffers
    requires forall s :: HoldsBuffer(e'.work, s, b) ==> HoldsBuffer(e.work, s, b)
    ensures Still(e, e', id, b) && Reaches(f, e, e')
  {
    StepInv(f, e, ev);
    StepKeys(f, e, ev);
    StepPersists(f, e, ev);
    FewerHolders(e.work, e'.work, b);
    ReachesStep(f, e, ev);
  }

  /** One holder less. */
  ghost predicate Freed(f: Reducer, e: Engine, e': Engine, id: nat, b: nat, slot: Slot) {
    Reaches(f, e, e') && Still(e, e', id, b) && !HoldsBuffer(e'.work, slot, b)
  }

  lemma FreedMore(f: Reducer, a: Engine, b: Engine, c: Engine, id: nat, buffer: nat, slot: Slot)
    requires Reaches(f, a, b) && Still(a, b, id, buffer) && Freed(f, b, c, id, buffer, slot)
    ensures Freed(f, a, c, id, buffer, slot)
  {
    ReachesThen(f, a, b, c);
    StillThen(a, b, c, id, buffer);
  }

  // ---------------------------------------------------------------------------
  // Workers

  lemma WorkerLetsGo(f: Reducer, e: Engine, id: nat, b: nat, k: nat) returns (e': Engine)
    requires Inv(e) && KeysOk(e.clients, e.work) && id in e.plans && b in e.mem.buffers
    requires k in e.work.workers && e.work.workers[k].buffer == Some(b)
    ensures Freed(f, e, e', id, b, WorkerAt(k))
  {
    var ev := EWorkerReleases(k);
    e' := Step(f, e, ev).0;
    WorkerSet(e.work, k, e.work.workers[k].(buffer := None));
    assert e'.work == SetWorker(e.work, k, e.work.workers[k].(buffer := None));
    StillStep(f, e, ev, e', id, b);
  }

  // ---------------------------------------------------------------------------
  // Windows and the plans on them

  lemma PlanLetsGo(f: Reducer, e: Engine, id: nat, b: nat, p: nat) returns (e': Engine)
    requires Inv(e) && KeysOk(e.clients, e.work) && id in e.plans && b in e.mem.buffers && p in e.plans && p != id
    ensures Reaches(f, e, e') && Still(e, e', id, b) && e'.plans == e.plans - {p}
    ensures e'.work.windows.Keys == e.work.windows.Keys
  {
    var ev := EFreePlan(p);
    e' := Step(f, e, ev).0;
    assert PlanValid(e.work.windows, e.plans[p]);
    RefsMoved(e.work, e.plans[p].window, -1);
    assert e'.work == MovePlanRefs(e.work, e.plans[p].window, -1) && e'.mem == e.mem;
    StillStep(f, e, ev, e', id, b);
  }

  lemma PlansOnDrop(plans: map<nat, Plan>, p: nat, w: nat)
    requires p in plans && plans[p].window == Some(w)
    ensures |PlansOn(plans - {p}, w)| < |PlansOn(plans, w)|
  {
    assert PlansOn(plans, w) == PlansOn(plans - {p}, w) + {p};
  }

  /** All plans on a window are released, one by one. */
  lemma {:induction false} PlansLetGo(f: Reducer, e: Engine, id: nat, b: nat, w: nat) returns (e': Engine)
    requires Inv(e) && KeysOk(e.clients, e.work) && id in e.plans && b in e.mem.buffers
    requires w in e.work.windows && e.plans[id].window != Some(w)
    ensures Reaches(f, e, e') && Still(e, e', id, b) && w in e'.work.windows && PlansOn(e'.plans, w) == {}
    decreases |PlansOn(e.plans, w)|
  {
    if PlansOn(e.plans, w) == {} {
      e' := e;
      ReachesSelf(f, e);
    } else {
      var p :| p in PlansOn(e.plans, w);
      var e1 := PlanLetsGo(f, e, id, b, p);
      PlansOnDrop(e.plans, p, w);
      e' := PlansLetGo(f, e1, id, b, w);
      ReachesThen(f, e, e1, e');
      StillThen(e, e1, e', id, b);
    }
  }

  lemma WindowLetsGo(f: Reducer, e: Engine, id: nat, b: nat, w: nat) returns (e': Engine)
    requires Inv(e) && KeysOk(e.clients, e.work) && id in e.plans && b in e.mem.buffers
    requires w in e.work.windows && e.plans[id].window != Some(w)
    ensures Freed(f, e, e', id, b, WindowAt(w))
  {
    var e1 := PlansLetGo(f, e, id, b, w);
    e' := EmptyWindowGoes(f, e1, id, b, w);
    FreedMore(f, e, e1, e', id, b, WindowAt(w));
  }

  lemma EmptyWindowGoes(f: Reducer, e: Engine, id: nat, b: nat, w: nat) returns (e': Engine)
    requires Inv(e) && KeysOk(e.clients, e.work) && id in e.plans && b in e.mem.buffers
    requires w in e.work.windows && PlansOn(e.plans, w) == {}
    ensures Freed(f, e, e', id, b, WindowAt(w))
  {
    var ev := EUnregister(w);
    e' := Step(f, e, ev).0;
    assert e.work.windows[w].planRefs == 0;
    WindowDropped(e.work, w);
    assert e'.work == DropWindow(e.work, w);
    StillStep(f, e, ev, e', id, b);
  }

  // ---------------------------------------------------------------------------
  // A client that joins a communicator to clear its tables

  /** Client 0 is the given rank, and `t` is a buffer of its own with at least `size` bytes. */
  predicate Clears(e: Engine, comm: string, size: nat, rank: nat, t: nat, b: nat, bytes: nat) {
    && 0 in e.clients && e.clients[0].attached && e.clients[0].comm == comm && e.clients[0].size == size
    && e.clients[0].rank == rank
    && t in e.mem.buffers && t != b && e.mem.buffers[t].owner == 0 && e.mem.buffers[t].kind == SimHbm
    && |e.mem.buffers[t].bytes| == bytes
  }

  lemma AttachClears(f: Reducer, e: Engine, id: nat, b: nat, comm: string, size: nat, rank: nat) returns (e': Engine)
    requires Inv(e) && KeysOk(e.clients, e.work) && id in e.plans && b in e.mem.buffers && comm != "" && rank < size
    ensures Reaches(f, e, e') && Still(e, e', id, b) && e'.work == e.work && e'.mem == e.mem
    ensures 0 in e'.clients && e'.clients[0] == Client(true, comm, rank, size, map[])
  {
    var e1 := ClientZero(f, e, id, b);
    var ev := EAttach(0, comm, rank, size);
    e' := Step(f, e1, ev).0;
    StillStep(f, e1, ev, e', id, b);
    ReachesThen(f, e, e1, e');
    StillThen(e, e1, e', id, b);
  }

  lemma ClientZero(f: Reducer, e: Engine, id: nat, b: nat) returns (e': Engine)
    requires Inv(e) && KeysOk(e.clients, e.work) && id in e.plans && b in e.mem.buffers
    ensures Reaches(f, e, e') && Still(e, e', id, b) && e'.work == e.work && e'.mem == e.mem && 0 in e'.clients
  {
    e' := e;
    ReachesSelf(f, e);
    if 0 !in e.clients {
      e' := Open(e, 0).0;
      StillStep(f, e, EOpen(0), e', id, b);
    }
  }

  lemma BufferClears(f: Reducer, e: Engine, id: nat, b: nat, bytes: nat) returns (e': Engine)
    requires Inv(e) && KeysOk(e.clients, e.work) && id in e.plans && b in e.mem.buffers && bytes > 0
    ensures Reaches(f, e, e') && Still(e, e', id, b) && e'.work == e.work && e'.clients == e.clients
    ensures e.mem.next != b && e.mem.next in e'.mem.buffers
    ensures e'.mem.buffers[e.mem.next] == Buffer(0, seq(bytes, i => 0), SimHbm, 0)
  {
    var ev := ENewBuffer(0, seq(bytes, i => 0), SimHbm);
    e' := Step(f, e, ev).0;
    StillStep(f, e, ev, e', id, b);
  }

  lemma Joins(f: Reducer, e: Engine, id: nat, b: nat, comm: string, size: nat, rank: nat, bytes: nat)
    returns (e': Engine)
    requires Inv(e) && KeysOk(e.clients, e.work) && id in e.plans && b in e.mem.buffers && comm != "" && rank < size
    requires bytes > 0
    ensures Reaches(f, e, e') && Still(e, e', id, b) && e'.work == e.work
    ensures Clears(e', comm, size, rank, e.mem.next, b, bytes) && forall c :: Seq(e'.clients[0], c) == 0
  {
    var e1 := AttachClears(f, e, id, b, comm, size, rank);
    e' := BufferClears(f, e1, id, b, bytes);
    ReachesThen(f, e, e1, e');
    StillThen(e, e1, e', id, b);
  }

  // ---------------------------------------------------------------------------
  // Pair entries

  /** A one-byte send takes the next number and clears what waits there. */
  lemma SendClears(f: Reducer, e: Engine, id: nat, b: nat, k: PairKey, t: nat) returns (e': Engine)
    requires Inv(e) && KeysOk(e.clients, e.work) && id in e.plans && b in e.mem.buffers && PairKeyOk(k)
    requires Clears(e, k.comm, k.size, k.src, t, b, 1) && Seq(e.clients[0], PairCounter(k.table, SendRole)) == k.index
    ensures Freed(f, e, e', id, b, RecvAt(k)) && Clears(e', k.comm, k.size, k.src, t, b, 1)
    ensures Seq(e'.clients[0], PairCounter(k.table, SendRole)) == k.index + 1
  {
    var ev := ETransfer(0, k.table, SendRole, t, 0, 1, UInt8, k.dst);
    var buffer := e.mem.buffers[t];
    var q := PairRequest(k, PairMeta(1, UInt8, 1), buffer.bytes[0..1]);
    assert DecideTransfer(e.clients[0], 0, k.table, SendRole, buffer, 0, 1, UInt8, k.dst) == Join(q);
    e' := Step(f, e, ev).0;
    assert e' == JoinTransfer(e, 0, SendRole, q, t, 0).0;
    SendEffect(e, q, t);
    StillStep(f, e, ev, e', id, b);
  }

  lemma SendEffect(e: Engine, q: PairRequest, t: nat)
    requires Inv(e) && 0 in e.clients && |q.payload| == q.meta.bytes
    ensures var e' := JoinTransfer(e, 0, SendRole, q, t, 0).0;
            && SameShape(e.mem, e'.mem) && e'.plans == e.plans
            && e'.clients == Advance(e, 0, PairCounter(q.key.table, SendRole)).clients
            && (forall s, b :: HoldsBuffer(e'.work, s, b) ==> HoldsBuffer(e.work, s, b) && s != RecvAt(q.key))
  {
    var e' := JoinTransfer(e, 0, SendRole, q, t, 0).0;
    var c' := Meet(CoreOf(e), q.key, SendRole, q.meta, q.payload, t, 0);
    assert e' == WithCore(Advance(e, 0, PairCounter(q.key.table, SendRole)), c');
    assert SaveFor(e.work, c'.work, q.key) && SameShape(e.mem, c'.mem) by {
      MeetKeeps(CoreOf(e), q.key, SendRole, q.meta, q.payload, t, 0);
    }
    MeetTable(CoreOf(e), q.key, SendRole, q.meta, q.payload, t, 0);
    PairHoldsLess(e.work, c'.work, q.key, NewEntry(SendRole, q.meta, q.payload, t, 0, e.mem.next));
  }

  lemma PairHoldsLess(w: Work, w': Work, k: PairKey, entry: PendingPair)
    requires SaveFor(w, w', k) && entry.recv == None
    requires w'.pairs == if k in w.pairs then w.pairs - {k} else w.pairs[k := entry]
    ensures forall s, b :: HoldsBuffer(w', s, b) ==> HoldsBuffer(w, s, b) && s != RecvAt(k)
  {
    forall s, b | HoldsBuffer(w', s, b)
      ensures HoldsBuffer(w, s, b) && s != RecvAt(k)
    {
      match s
      case CollAt(_, _) =>
      case SendAt(_) =>
      case RecvAt(j) =>
      case WindowAt(_) =>
      case TaskAt(_) =>
      case WorkerAt(_) =>
    }
  }

  /** Sends up to and including number `k.index`. */
  lemma {:induction false} SendsClear(f: Reducer, e: Engine, id: nat, b: nat, k: PairKey, t: nat) returns (e': Engine)
    requires Inv(e) && KeysOk(e.clients, e.work) && id in e.plans && b in e.mem.buffers && PairKeyOk(k)
    requires Clears(e, k.comm, k.size, k.src, t, b, 1) && Seq(e.clients[0], PairCounter(k.table, SendRole)) <= k.index
    ensures Freed(f, e, e', id, b, RecvAt(k))
    decreases k.index - Seq(e.clients[0], PairCounter(k.table, SendRole))
  {
    var i := Seq(e.clients[0], PairCounter(k.table, SendRole));
    var e1 := SendClears(f, e, id, b, k.(index := i), t);
    if i == k.index {
      e' := e1;
    } else {
      e' := SendsClear(f, e1, id, b, k, t);
      FreedMore(f, e, e1, e', id, b, RecvAt(k));
    }
  }

  lemma RecvLetsGo(f: Reducer, e: Engine, id: nat, b: nat, k: PairKey) returns (e': Engine)
    requires Inv(e) && KeysOk(e.clients, e.work) && id in e.plans && b in e.mem.buffers && k in e.work.pairs
    ensures Freed(f, e, e', id, b, RecvAt(k))
  {
    assert PairKeyOk(k);
    var e1 := Joins(f, e, id, b, k.comm, k.size, k.src, 1);
    e' := SendsClear(f, e1, id, b, k, e.mem.next);
    FreedMore(f, e, e1, e', id, b, RecvAt(k));
  }

  // ---------------------------------------------------------------------------
  // Collective entries

  /** The parameters of a one-element collective on a communicator of the given size. */
  function OneElement(kind: CollKind, size: nat, d: DataType): CollParams {
    CollParams(1, d, ReduceSum, 1, if kind == AllGather then size else 1)
  }

  predicate Gatherable(k: CollKey) { k.size > 0 && (k.kind == AllGather ==> k.size <= SIZE_MAX) }

  predicate OneByte(d: DataType) { d == Int8 || d == UInt8 }

  /** Either the entry is gone, or one more slot of it holds `t`. */
  lemma CollHoldsLess(w: Work, w': Work, k: CollKey, p: CollParams, rank: nat, slot: CollSlot, arrivals: nat, b: nat)
    requires OtherWork(w, w') && slot.dst != b && rank < |EntryOr(w, k, p).slots|
    requires w'.colls == w.colls - {k} ||
             w'.colls == w.colls[k := PendingColl(p, EntryOr(w, k, p).slots[rank := Some(slot)], arrivals)]
    ensures forall s :: HoldsBuffer(w', s, b) ==> HoldsBuffer(w, s, b)
  {
    forall s | HoldsBuffer(w', s, b)
      ensures HoldsBuffer(w, s, b)
    {
      match s
      case CollAt(j, r) =>
        if j == k {
          assert r < |EntryOr(w, k, p).slots| && r != rank;
          assert EntryOr(w, k, p).slots[r] == w'.colls[k].slots[r];
        }
      case SendAt(_) =>
      case RecvAt(_) =>
      case WindowAt(_) =>
      case TaskAt(_) =>
      case WorkerAt(_) =>
    }
  }

  lemma ErasedHoldsLess(w: Work, w': Work, k: CollKey, b: nat)
    requires OtherWork(w, w') && w'.colls == w.colls - {k}
    ensures forall s :: HoldsBuffer(w', s, b) ==> HoldsBuffer(w, s, b)
    ensures forall r :: !HoldsBuffer(w', CollAt(k, r), b)
  {
    forall s | HoldsBuffer(w', s, b)
      ensures HoldsBuffer(w, s, b)
    {
      match s
      case CollAt(j, r) =>
      case SendAt(_) =>
      case RecvAt(_) =>
      case WindowAt(_) =>
      case TaskAt(_) =>
      case WorkerAt(_) =>
    }
  }

  lemma JoinHoldsLess(f: Reducer, c: Core, k: CollKey, p: CollParams, rank: nat, slot: CollSlot, w': Work, b: nat)
    requires Balanced(c.mem, c.work) && CollsValid(c.mem, c.work) && slot.io == c.mem.next && slot.dst != b
    requires slot.offset == 0
    requires ArrivalOk(c.mem, k, p, rank, slot.payload, slot.dst, 0)
    requires var e := EntryOr(c.work, k, p); e.params == p && rank < |e.slots| && e.slots[rank] == None
    requires w' == Arrive(f, c, k, p, rank, slot.payload, slot.dst, 0).work && OtherWork(c.work, w')
    ensures forall s :: HoldsBuffer(w', s, b) ==> HoldsBuffer(c.work, s, b)
  {
    ArriveTable(f, c, k, p, rank, slot);
    CollHoldsLess(c.work, w', k, p, rank, slot, EntryOr(c.work, k, p).arrivals + 1, b);
  }

  lemma RejectHoldsLess(
    f: Reducer, c: Core, k: CollKey, p: CollParams, rank: nat, payload: Bytes, dst: nat, w': Work, b: nat)
    requires Balanced(c.mem, c.work) && CollsValid(c.mem, c.work)
    requires var e := EntryOr(c.work, k, p); e.params != p || rank >= |e.slots| || e.slots[rank].Some?
    requires w' == Arrive(f, c, k, p, rank, payload, dst, 0).work
    ensures forall s :: HoldsBuffer(w', s, b) ==> HoldsBuffer(c.work, s, b)
    ensures forall r :: !HoldsBuffer(w', CollAt(k, r), b)
  {
    RejectKeeps(c, k);
    ErasedHoldsLess(c.work, w', k, b);
  }

  lemma ArriveHoldsLess(f: Reducer, c: Core, k: CollKey, p: CollParams, rank: nat, payload: Bytes, dst: nat, b: nat)
    requires Balanced(c.mem, c.work) && CollsValid(c.mem, c.work) && ArrivalOk(c.mem, k, p, rank, payload, dst, 0)
    requires dst != b
    ensures var c' := Arrive(f, c, k, p, rank, payload, dst, 0);
            && SameShape(c.mem, c'.mem) && OtherColls(c.work, c'.work, k)
            && (forall s :: HoldsBuffer(c'.work, s, b) ==> HoldsBuffer(c.work, s, b))
            && (k in c.work.colls && c.work.colls[k].params != p ==> forall r :: !HoldsBuffer(c'.work, CollAt(k, r), b))
  {
    var e := EntryOr(c.work, k, p);
    var c' := Arrive(f, c, k, p, rank, payload, dst, 0);
    assert SameShape(c.mem, c'.mem) && OtherColls(c.work, c'.work, k) && OtherWork(c.work, c'.work) by {
      ArriveKeeps(f, c, k, p, rank, payload, dst, 0);
    }
    if e.params != p || rank >= |e.slots| || e.slots[rank].Some? {
      RejectHoldsLess(f, c, k, p, rank, payload, dst, c'.work, b);
    } else {
      JoinHoldsLess(f, c, k, p, rank, CollSlot(payload, dst, 0, c.mem.next), c'.work, b);
    }
  }

  lemma OneByteDecides(c: Client, m: Mem, kind: CollKind, t: nat, d: DataType)
    requires c.attached && c.size > 0 && (kind == AllGather ==> c.size <= SIZE_MAX) && OneByte(d)
    requires t in m.buffers && m.buffers[t].kind == SimHbm && |m.buffers[t].bytes| == c.size
    ensures DecideCollective(c, m, kind, t, 0, t, 0, 1, d, ReduceSum) ==
            Join(CollRequest(CollKey(c.comm, c.size, Seq(c, CollCounter(kind)), kind), OneElement(kind, c.size, d),
                             Load(m, t, 0, 1)))
  {
  }

  lemma CollEffect(f: Reducer, e: Engine, kind: CollKind, t: nat, d: DataType, b: nat, k: CollKey)
    requires Inv(e) && OneByte(d) && Gatherable(k) && k.kind == kind
    requires Clears(e, k.comm, k.size, 0, t, b, k.size) && Seq(e.clients[0], CollCounter(kind)) == k.index
    ensures var e' := SubmitCollective(f, e, 0, kind, t, 0, t, 0, 1, d, ReduceSum).0;
            && SameShape(e.mem, e'.mem) && e'.plans == e.plans && e'.clients == Advance(e, 0, CollCounter(kind)).clients
            && OtherColls(e.work, e'.work, k)
            && (forall s :: HoldsBuffer(e'.work, s, b) ==> HoldsBuffer(e.work, s, b))
            && (k in e.work.colls && e.work.colls[k].params != OneElement(kind, k.size, d) ==>
                  forall r :: !HoldsBuffer(e'.work, CollAt(k, r), b))
  {
    var p := OneElement(kind, k.size, d);
    var q := CollRequest(k, p, Load(e.mem, t, 0, 1));
    OneByteDecides(e.clients[0], e.mem, kind, t, d);
    assert SubmitCollective(f, e, 0, kind, t, 0, t, 0, 1, d, ReduceSum) == JoinCollective(f, e, 0, q, t, 0);
    assert ArrivalOk(e.mem, k, p, e.clients[0].rank, q.payload, t, 0);
    ArriveHoldsLess(f, CoreOf(e), k, p, e.clients[0].rank, q.payload, t, b);
  }

  /** A one-element collective takes the next number; if an entry with other parameters waits
      there, it is failed and gone. */
  lemma CollClears(f: Reducer, e: Engine, id: nat, b: nat, k: CollKey, t: nat, d: DataType) returns (e': Engine)
    requires Inv(e) && KeysOk(e.clients, e.work) && id in e.plans && b in e.mem.buffers && OneByte(d) && Gatherable(k)
    requires Clears(e, k.comm, k.size, 0, t, b, k.size) && Seq(e.clients[0], CollCounter(k.kind)) == k.index
    ensures Reaches(f, e, e') && Still(e, e', id, b) && Clears(e', k.comm, k.size, 0, t, b, k.size)
    ensures OtherColls(e.work, e'.work, k)
    ensures Seq(e'.clients[0], CollCounter(k.kind)) == k.index + 1
    ensures k in e.work.colls && e.work.colls[k].params != OneElement(k.kind, k.size, d) ==>
              forall r :: !HoldsBuffer(e'.work, CollAt(k, r), b)
  {
    var ev := ECollective(0, k.kind, t, 0, t, 0, 1, d, ReduceSum);
    e' := Step(f, e, ev).0;
    CollEffect(f, e, k.kind, t, d, b, k);
    StillStep(f, e, ev, e', id, b);
  }

  /** Collectives up to and including number `k.index`, of a type the waiting entry was not
      submitted with. An entry in which the buffer has been let go meanwhile is fine too. */
  lemma {:induction false} CollsClear(f: Reducer, e: Engine, id: nat, b: nat, k: CollKey, t: nat, d: DataType, r: nat)
    returns (e': Engine)
    requires Inv(e) && KeysOk(e.clients, e.work) && id in e.plans && b in e.mem.buffers && OneByte(d) && Gatherable(k)
    requires Clears(e, k.comm, k.size, 0, t, b, k.size) && Seq(e.clients[0], CollCounter(k.kind)) <= k.index
    requires HoldsBuffer(e.work, CollAt(k, r), b) ==>
               k in e.work.colls && e.work.colls[k].params != OneElement(k.kind, k.size, d)
    ensures Freed(f, e, e', id, b, CollAt(k, r))
    decreases k.index - Seq(e.clients[0], CollCounter(k.kind))
  {
    var i := Seq(e.clients[0], CollCounter(k.kind));
    var e1 := CollClears(f, e, id, b, k.(index := i), t, d);
    if i == k.index {
      e' := e1;
      StillHolds(e, e1, id, b, CollAt(k, r));
    } else {
      StillHolds(e, e1, id, b, CollAt(k, r));
      OtherEntrySame(e.work, e1.work, k.(index := i), k);
      e' := CollsClear(f, e1, id, b, k, t, d, r);
      FreedMore(f, e, e1, e', id, b, CollAt(k, r));
    }
  }

  lemma StillHolds(e: Engine, e': Engine, id: nat, b: nat, s: Slot)
    requires Still(e, e', id, b)
    ensures HoldsBuffer(e'.work, s, b) ==> HoldsBuffer(e.work, s, b)
  {
    BufferHolder(e'.work, s, b);
    BufferHolder(e.work, s, b);
  }

  lemma OtherEntrySame(w: Work, w': Work, k: CollKey, j: CollKey)
    requires OtherColls(w, w', k) && j != k
    ensures (j in w'.colls <==> j in w.colls) && (j in w.colls ==> w'.colls[j] == w.colls[j])
  {
    assert j in w'.colls <==> j in w'.colls - {k};
    assert j in w.colls <==> j in w.colls - {k};
    if j in w.colls {
      assert (w'.colls - {k})[j] == (w.colls - {k})[j];
    }
  }

  lemma EntryGatherable(m: Mem, w: Work, k: CollKey)
    requires CollsValid(m, w) && k in w.colls && CollKeyOk(k, w.colls[k].params)
    ensures Gatherable(k)
  {
    assert EntryValid(m, k, w.colls[k]);
    AtLeastFactor(w.colls[k].params.inBytes, k.size);
  }

  lemma AtLeastFactor(a: nat, b: nat)
    requires a > 0
    ensures a * b >= b
  {
    assert a * b == (a - 1) * b + b;
  }

  lemma CollLetsGo(f: Reducer, e: Engine, id: nat, b: nat, k: CollKey, r: nat) returns (e': Engine)
    requires Inv(e) && KeysOk(e.clients, e.work) && id in e.plans && b in e.mem.buffers
    requires HoldsBuffer(e.work, CollAt(k, r), b)
    ensures Freed(f, e, e', id, b, CollAt(k, r))
  {
    assert k in e.work.colls && CollKeyOk(k, e.work.colls[k].params);
    EntryGatherable(e.mem, e.work, k);
    var d := if e.work.colls[k].params == OneElement(k.kind, k.size, UInt8) then Int8 else UInt8;
    var e1 := Joins(f, e, id, b, k.comm, k.size, 0, k.size);
    e' := CollsClear(f, e1, id, b, k, e.mem.next, d, r);
    FreedMore(f, e, e1, e', id, b, CollAt(k, r));
  }

  // ---------------------------------------------------------------------------
  // Everything

  /** Any holder but the plan's own window can be made to let go. */
  lemma HolderLetsGo(f: Reducer, e: Engine, id: nat, b: nat, slot: Slot) returns (e': Engine)
    requires Inv(e) && KeysOk(e.clients, e.work) && id in e.plans && b in e.mem.buffers && HoldsBuffer(e.work, slot, b)
    requires e.plans[id].window.Some? ==> slot != WindowAt(e.plans[id].window.value)
    ensures Freed(f, e, e', id, b, slot)
  {
    match slot
    case CollAt(k, r) => e' := CollLetsGo(f, e, id, b, k, r);
    case RecvAt(k) => e' := RecvLetsGo(f, e, id, b, k);
    case WindowAt(w) => e' := WindowLetsGo(f, e, id, b, w);
    case WorkerAt(k) => e' := WorkerLetsGo(f, e, id, b, k);
  }

  lemma FreedCount(f: Reducer, e: Engine, e': Engine, id: nat, b: nat, slot: Slot)
    requires Freed(f, e, e', id, b, slot) && HoldsBuffer(e.work, slot, b)
    ensures |BufferHolders(e'.work, b)| < |BufferHolders(e.work, b)|
  {
    BufferHolder(e.work, slot, b);
    BufferHolder(e'.work, slot, b);
    var rest := BufferHolders(e.work, b) - {slot};
    assert BufferHolders(e'.work, b) <= rest;
    SubsetSize(BufferHolders(e'.work, b), rest);
  }

  lemma {:induction false} SubsetSize<T>(a: set<T>, b: set<T>)
    requires a <= b
    ensures |a| <= |b|
  {
    if a != {} {
      var x :| x in a;
      SubsetSize(a - {x}, b - {x});
    }
  }

  /** The plan's window does not hold the buffer, now or later in the draining. */
  ghost predicate Aside(e: Engine, id: nat, b: nat) {
    id in e.plans && (e.plans[id].window.Some? ==> !HoldsBuffer(e.work, WindowAt(e.plans[id].window.value), b))
  }

  /** All holders can be made to let go, one after the other, while the plan lives. */
  lemma {:induction false} AllLetGo(f: Reducer, e: Engine, id: nat, b: nat) returns (e': Engine)
    requires Inv(e) && KeysOk(e.clients, e.work) && b in e.mem.buffers && Aside(e, id, b)
    ensures Reaches(f, e, e') && Still(e, e', id, b) && BufferHolders(e'.work, b) == {}
    decreases |BufferHolders(e.work, b)|
  {
    if BufferHolders(e.work, b) == {} {
      e' := e;
      ReachesSelf(f, e);
    } else {
      var slot :| slot in BufferHolders(e.work, b);
      BufferHolder(e.work, slot, b);
      var e1 := HolderLetsGo(f, e, id, b, slot);
      FreedCount(f, e, e1, id, b, slot);
      if e.plans[id].window.Some? {
        StillHolds(e, e1, id, b, WindowAt(e.plans[id].window.value));
      }
      e' := AllLetGo(f, e1, id, b);
      ReachesThen(f, e, e1, e');
      StillThen(e, e1, e', id, b);
    }
  }

  lemma FreedAtLast(f: Reducer, e: Engine, id: nat, b: nat) returns (e': Engine)
    requires Inv(e) && b in e.mem.buffers && id in e.plans && BufferHolders(e.work, b) == {}
    ensures Reaches(f, e, e') && id in e'.plans && b !in e'.mem.buffers
  {
    var ev := EFreeBuffer(b);
    e' := Step(f, e, ev).0;
    ReachesStep(f, e, ev);
  }

  // ---------------------------------------------------------------------------
  // The theorem

  /** The plan keeps its destination alive for as long as the plan itself lives. */
  ghost predicate KeepsDestination(f: Reducer, e: Engine, id: nat)
    requires id in e.plans && e.plans[id].dst.Some?
  {
    forall e' :: Reaches(f, e, e') && id in e'.plans ==> e.plans[id].dst.value in e'.mem.buffers
  }

  predicate WindowNamesDestination(e: Engine, id: nat)
    requires id in e.plans
  {
    var p := e.plans[id];
    p.window.Some? && p.window.value in e.work.windows && p.dst == Some(e.work.windows[p.window.value].buffer)
  }

  /** In every reachable state, a live plan keeps its live destination alive if and only if its
      window names the destination. Nothing else about the plan does, whoever else holds the
      buffer at the moment; only direct receive plans are checked for such a window. */
  lemma KeepsDestinationExactly(f: Reducer, events: seq<Event>, e: Engine, id: nat)
    requires Run(f, EMPTY, events, e)
    requires id in e.plans && e.plans[id].dst.Some? && e.plans[id].dst.value in e.mem.buffers
    ensures KeepsDestination(f, e, id) <==> WindowNamesDestination(e, id)
  {
    EmptyInv();
    RunKeys(f, EMPTY, events, e);
    if WindowNamesDestination(e, id) {
      NamedIsKept(f, e, id);
    } else {
      NamesAside(e, id);
      var _ := AsideIsLost(f, e, id, e.plans[id].dst.value);
    }
  }

  lemma NamesAside(e: Engine, id: nat)
    requires Inv(e) && id in e.plans && e.plans[id].dst.Some? && !WindowNamesDestination(e, id)
    ensures Aside(e, id, e.plans[id].dst.value)
  {
  }

  lemma AsideIsLost(f: Reducer, e: Engine, id: nat, b: nat) returns (e': Engine)
    requires Inv(e) && KeysOk(e.clients, e.work) && b in e.mem.buffers && Aside(e, id, b)
    ensures Reaches(f, e, e') && id in e'.plans && b !in e'.mem.buffers
  {
    var e1 := AllLetGo(f, e, id, b);
    e' := FreedAtLast(f, e1, id, b);
    ReachesThen(f, e, e1, e');
  }

  lemma NamedIsKept(f: Reducer, e: Engine, id: nat)
    requires Inv(e) && id in e.plans && e.plans[id].dst.Some? && WindowNamesDestination(e, id)
    ensures KeepsDestination(f, e, id)
  {
    forall e' | Reaches(f, e, e') && id in e'.plans
      ensures e.plans[id].dst.value in e'.mem.buffers
    {
      var events :| Run(f, e, events, e');
      PlanSurvives(f, e, events, e', id);
    }
  }
}
