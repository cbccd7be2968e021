/** Every event keeps the engine invariant, so every reachable state has it. */
module SimRuns {
  import opened Common
  import opened SimState
  import opened SimLedger
  import opened SimCollective
  import opened SimCollectiveInv
  import opened SimArrive
  import opened SimPair
  import opened SimEngine
  import opened SimEngineInv

  // ---------------------------------------------------------------------------
  // Buffers, IOs, blocks and caller writes

  lemma OpenInv(e: Engine, client: nat)
    requires Inv(e)
    ensures Inv(Open(e, client).0)
  {
  }

  lemma AttachInv(e: Engine, client: nat, comm: string, rank: nat, size: nat)
    requires Inv(e)
    ensures Inv(Attach(e, client, comm, rank, size).0)
  {
  }

  lemma NewBufferInv(e: Engine, client: nat, bytes: Bytes, kind: BufferKind)
    requires Inv(e)
    ensures Inv(NewBuffer(e, client, bytes, kind).0)
  {
    if bytes != [] {
      var m' := NewBuffer(e, client, bytes, kind).0.mem;
      assert HeldShape(e.mem, e.work, m');
      QuietCore(e.mem, e.work, m');
    }
  }

  /** A buffer without references is in no slot. */
  lemma Unheld(m: Mem, w: Work, b: nat, s: Slot)
    requires Balanced(m, w) && b in m.buffers && m.buffers[b].pending == 0
    ensures !HoldsBuffer(w, s, b)
  {
    BufferHolder(w, s, b);
    if HoldsBuffer(w, s, b) {
      HeldReferences(m, w, s, HoldAt(w, s).value);
    }
  }

  lemma FreeBufferInv(e: Engine, b: nat)
    requires Inv(e) && b in e.mem.buffers
    ensures Inv(FreeBuffer(e, b).0)
  {
    if e.mem.buffers[b].pending == 0 {
      var m' := FreeBuffer(e, b).0.mem;
      forall s
        ensures !HoldsBuffer(e.work, s, b)
      {
        Unheld(e.mem, e.work, b, s);
      }
      assert HeldShape(e.mem, e.work, m');
      QuietCore(e.mem, e.work, m');
    }
  }

  lemma WriteInv(e: Engine, b: nat, offset: nat, data: Bytes)
    requires Inv(e) && ValidRange(e.mem, b, offset, |data|)
    ensures Inv(e.(mem := Store(e.mem, b, offset, data)))
  {
    var m' := Store(e.mem, b, offset, data);
    StoreKeeps(e.mem, b, offset, data);
    ShapeHeld(e.mem, e.work, m');
    QuietCore(e.mem, e.work, m');
  }

  lemma FreeIoInv(e: Engine, io: nat)
    requires Inv(e) && io in e.mem.ios && !Private(e, io)
    ensures Inv(FreeIo(e, io).0)
  {
    if e.mem.ios[io].refs == 0 {
      var m' := FreeIo(e, io).0.mem;
      ShapeHeld(e.mem, e.work, m');
      QuietCore(e.mem, e.work, m');
    }
  }

  lemma BumpCore(m: Mem, w: Work)
    requires CoreInv(m, w)
    ensures CoreInv(Bump(m), w)
  {
    ShapeHeld(m, w, Bump(m));
    QuietCore(m, w, Bump(m));
  }

  lemma PrepareInv(e: Engine, client: nat, payload: Bytes)
    requires Inv(e)
    ensures Inv(Prepare(e, client, payload).0)
  {
    BumpCore(e.mem, e.work);
  }

  /** Tables that are not touched stay valid when no buffer changes shape. */
  lemma TablesShape(m: Mem, w: Work, m': Mem, w': Work)
    requires CollsValid(m, w) && PairsValid(m, w) && WindowsValid(m, w.windows)
    requires SameShape(m, m') && m.next <= m'.next && w'.colls == w.colls && w'.pairs == w.pairs
    ensures CollsValid(m', w') && PairsValid(m', w') && WindowsValid(m', w.windows)
  {
    AllCollsShape(m, w, m', w');
    PairsShape(m, w, m', w');
    WindowsShape(m, m', w.windows);
  }

  // ---------------------------------------------------------------------------
  // Windows

  function AddWindow(w: Work, id: nat, window: Window): Work { w.(windows := w.windows[id := window]) }

  function DropWindow(w: Work, id: nat): Work { w.(windows := w.windows - {id}) }

  lemma WindowAdded(w: Work, id: nat, window: Window)
    requires id !in w.windows
    ensures HoldAt(w, WindowAt(id)) == None
    ensures SlotChanged(w, AddWindow(w, id, window), WindowAt(id), Some(Hold(Some(window.buffer), None)))
  {
  }

  lemma WindowDropped(w: Work, id: nat)
    requires id in w.windows
    ensures SlotChanged(w, DropWindow(w, id), WindowAt(id), None)
  {
  }

  lemma BufferCountMoves(m: Mem, b: nat)
    requires b in m.buffers
    ensures CountsMoved(m, Bump(RetainBuffer(m, b)), Some(b), 1) && SameShape(m, Bump(RetainBuffer(m, b)))
    ensures m.buffers[b].pending > 0 ==>
              CountsMoved(m, ReleaseBuffer(m, b), Some(b), -1) && SameShape(m, ReleaseBuffer(m, b))
  {
  }

  lemma RegisterCore(m: Mem, w: Work, window: Window)
    requires CoreInv(m, w) && WindowValid(m, window)
    ensures CoreInv(Bump(RetainBuffer(m, window.buffer)), AddWindow(w, m.next, window))
  {
    var m', w' := Bump(RetainBuffer(m, window.buffer)), AddWindow(w, m.next, window);
    WindowAdded(w, m.next, window);
    BufferCountMoves(m, window.buffer);
    BalanceAdd(m, w, m', w', WindowAt(m.next), Hold(Some(window.buffer), None));
    TablesShape(m, w, m', w');
    TasksHeld(m, m', w.tasks);
  }

  lemma UnregisterCore(m: Mem, w: Work, id: nat)
    requires CoreInv(m, w) && id in w.windows
    ensures CoreInv(ReleaseBuffer(m, w.windows[id].buffer), DropWindow(w, id))
  {
    var b := w.windows[id].buffer;
    var m', w' := ReleaseBuffer(m, b), DropWindow(w, id);
    HeldReferences(m, w, WindowAt(id), Hold(Some(b), None));
    WindowDropped(w, id);
    BufferCountMoves(m, b);
    BalanceDrop(m, w, m', w', WindowAt(id), Hold(Some(b), None));
    TablesShape(m, w, m', w');
  }

  lemma NoPlans(plans: map<nat, Plan>, windows: map<nat, Window>, next: nat, id: nat)
    requires PlansInv(plans, windows, next) && (id in windows ==> windows[id].planRefs == 0)
    ensures PlansOn(plans, id) == {} && forall p :: p in plans ==> plans[p].window != Some(id)
  {
    if id !in windows {
      assert forall p :: p in plans ==> PlanValid(windows, plans[p]);
    }
    assert forall p :: p in plans && plans[p].window == Some(id) ==> p in PlansOn(plans, id);
  }

  lemma RegisterPlans(plans: map<nat, Plan>, windows: map<nat, Window>, next: nat, window: Window)
    requires PlansInv(plans, windows, next) && next !in windows && window.planRefs == 0
    ensures PlansInv(plans, windows[next := window], next + 1)
  {
    NoPlans(plans, windows, next, next);
    forall p | p in plans
      ensures PlanValid(windows[next := window], plans[p])
    {
      assert PlanValid(windows, plans[p]);
    }
  }

  lemma UnregisterPlans(plans: map<nat, Plan>, windows: map<nat, Window>, next: nat, id: nat)
    requires PlansInv(plans, windows, next) && id in windows && windows[id].planRefs == 0
    ensures PlansInv(plans, windows - {id}, next)
  {
    NoPlans(plans, windows, next, id);
    forall p | p in plans
      ensures PlanValid(windows - {id}, plans[p])
    {
      assert PlanValid(windows, plans[p]);
    }
  }

  lemma RegisterInv(e: Engine, client: nat, b: nat, offset: nat, len: nat)
    requires Inv(e) && b in e.mem.buffers
    ensures Inv(RegisterWindow(e, client, b, offset, len).0)
  {
    var e' := RegisterWindow(e, client, b, offset, len).0;
    if e' != e {
      var window := Window(client, b, offset, len, 0);
      assert e' == e.(mem := Bump(RetainBuffer(e.mem, b)), work := AddWindow(e.work, e.mem.next, window));
      RegisterCore(e.mem, e.work, window);
      RegisterPlans(e.plans, e.work.windows, e.mem.next, window);
    }
  }

  lemma UnregisterInv(e: Engine, id: nat)
    requires Inv(e) && id in e.work.windows
    ensures Inv(ReleaseWindow(e, id).0)
  {
    var e' := ReleaseWindow(e, id).0;
    if e.work.windows[id].planRefs == 0 {
      assert e' == e.(mem := ReleaseBuffer(e.mem, e.work.windows[id].buffer), work := DropWindow(e.work, id));
      UnregisterCore(e.mem, e.work, id);
      UnregisterPlans(e.plans, e.work.windows, e.mem.next, id);
    }
  }

  // ---------------------------------------------------------------------------
  // Plans

  /** The windows are the same apart from their plan counts. */
  predicate SameWindows(windows: map<nat, Window>, windows': map<nat, Window>) {
    && windows'.Keys == windows.Keys
    && forall w :: w in windows ==> windows'[w].(planRefs := 0) == windows[w].(planRefs := 0)
  }

  lemma RefsMoved(w: Work, window: Option<nat>, delta: int)
    requires window.Some? ==> window.value in w.windows
    ensures var w' := MovePlanRefs(w, window, delta);
            && SameHolds(w, w') && SameWindows(w.windows, w'.windows)
            && w'.colls == w.colls && w'.pairs == w.pairs && w'.tasks == w.tasks && w'.workers == w.workers
            && forall i :: i in w.windows ==>
                 w'.windows[i].planRefs == w.windows[i].planRefs + if window == Some(i) then delta else 0
  {
  }

  lemma RefsCore(m: Mem, w: Work, w': Work)
    requires CoreInv(m, w) && SameHolds(w, w') && SameWindows(w.windows, w'.windows)
    requires w'.colls == w.colls && w'.pairs == w.pairs && w'.tasks == w.tasks && w'.workers == w.workers
    ensures CoreInv(m, w')
  {
    BalanceSame(m, w, m, w');
    forall i | i in w'.windows
      ensures i < m.next && WindowValid(m, w'.windows[i])
    {
      assert w'.windows[i].(planRefs := 0) == w.windows[i].(planRefs := 0);
      assert WindowValid(m, w.windows[i]);
    }
  }

  lemma SameWindowsValid(windows: map<nat, Window>, windows': map<nat, Window>, p: Plan)
    requires SameWindows(windows, windows') && PlanValid(windows, p)
    ensures PlanValid(windows', p)
  {
    if p.window.Some? {
      assert windows'[p.window.value].(planRefs := 0) == windows[p.window.value].(planRefs := 0);
    }
  }

  lemma AddPlan(plans: map<nat, Plan>, windows: map<nat, Window>, windows': map<nat, Window>, next: nat, p: Plan)
    requires PlansInv(plans, windows, next) && PlanValid(windows, p) && SameWindows(windows, windows')
    requires forall i :: i in windows ==> windows'[i].planRefs == windows[i].planRefs + if p.window == Some(i) then 1
             else 0
    ensures PlansInv(plans[next := p], windows', next + 1)
  {
    var plans' := plans[next := p];
    assert next !in plans;
    forall q | q in plans'
      ensures PlanValid(windows', plans'[q])
    {
      SameWindowsValid(windows, windows', plans'[q]);
    }
    forall i | i in windows'
      ensures windows'[i].planRefs == |PlansOn(plans', i)|
    {
      PlansOnAdded(plans, next, p, i);
    }
  }

  lemma PlansOnAdded(plans: map<nat, Plan>, id: nat, p: Plan, w: nat)
    requires id !in plans
    ensures |PlansOn(plans[id := p], w)| == |PlansOn(plans, w)| + if p.window == Some(w) then 1 else 0
  {
    if p.window == Some(w) {
      assert PlansOn(plans[id := p], w) == PlansOn(plans, w) + {id};
    } else {
      assert PlansOn(plans[id := p], w) == PlansOn(plans, w);
    }
  }

  lemma DropPlan(plans: map<nat, Plan>, windows: map<nat, Window>, windows': map<nat, Window>, next: nat, id: nat)
    requires PlansInv(plans, windows, next) && id in plans && SameWindows(windows, windows')
    requires forall i :: i in windows ==> windows'[i].planRefs == windows[i].planRefs + if plans[id].window == Some(i)
             then -1 else 0
    ensures PlansInv(plans - {id}, windows', next)
  {
    var plans' := plans - {id};
    forall q | q in plans'
      ensures PlanValid(windows', plans'[q])
    {
      SameWindowsValid(windows, windows', plans'[q]);
    }
    forall i | i in windows'
      ensures windows'[i].planRefs == |PlansOn(plans', i)|
    {
      if plans[id].window == Some(i) {
        assert PlansOn(plans, i) == PlansOn(plans', i) + {id};
      } else {
        assert PlansOn(plans', i) == PlansOn(plans, i);
      }
    }
  }

  /** An accepted plan is valid: the checks rule out staging against the caller's wish and a
      direct receive outside its window. */
  lemma AcceptedValid(e: Engine, client: nat, block: Option<nat>, dst: Option<nat>, dstOffset: nat, o: DirectOptions)
    requires Legal(e, ECreatePlan(client, block, dst, dstOffset, o))
    requires CheckPlan(e, client, block, dst, dstOffset, o).Accepted?
    ensures var c := e.clients[client];
            PlanValid(e.work.windows,
                      Plan(client, block, dst, o.window, dstOffset, ChosenPath(o, c.attached),
                           ChosenRole(o, c.attached, block.Some?), o.peer, o.requireDirect, o.allowStaging,
                           CheckPlan(e, client, block, dst, dstOffset, o).bytes))
  {
  }

  lemma CreatePlanInv(e: Engine, client: nat, block: Option<nat>, dst: Option<nat>, dstOffset: nat, o: DirectOptions)
    requires Inv(e) && Legal(e, ECreatePlan(client, block, dst, dstOffset, o))
    ensures Inv(CreatePlan(e, client, block, dst, dstOffset, o).0)
  {
    var e' := CreatePlan(e, client, block, dst, dstOffset, o).0;
    match CheckPlan(e, client, block, dst, dstOffset, o)
    case Refused(_) =>
    case Accepted(bytes) =>
      AcceptedValid(e, client, block, dst, dstOffset, o);
      PlanAdded(e, o.window, e'.plans[e.mem.next]);
  }

  lemma PlanAdded(e: Engine, window: Option<nat>, p: Plan)
    requires Inv(e) && PlanValid(e.work.windows, p) && p.window == window
    ensures Inv(e.(mem := Bump(e.mem), work := MovePlanRefs(e.work, window, 1), plans := e.plans[e.mem.next := p]))
  {
    RefsMoved(e.work, window, 1);
    RefsCore(e.mem, e.work, MovePlanRefs(e.work, window, 1));
    BumpCore(e.mem, MovePlanRefs(e.work, window, 1));
    AddPlan(e.plans, e.work.windows, MovePlanRefs(e.work, window, 1).windows, e.mem.next, p);
  }

  lemma FreePlanInv(e: Engine, id: nat)
    requires Inv(e) && id in e.plans
    ensures Inv(FreePlan(e, id).0)
  {
    var window := e.plans[id].window;
    assert PlanValid(e.work.windows, e.plans[id]);
    RefsMoved(e.work, window, -1);
    RefsCore(e.mem, e.work, MovePlanRefs(e.work, window, -1));
    DropPlan(e.plans, e.work.windows, MovePlanRefs(e.work, window, -1).windows, e.mem.next, id);
  }

  // ---------------------------------------------------------------------------
  // Reads and their forwarding threads

  lemma TaskAdded(w: Work, id: nat, t: Task)
    requires id !in w.tasks
    ensures var w' := w.(tasks := w.tasks[id := t]);
            HoldAt(w, TaskAt(id)) == None && SlotChanged(w, w', TaskAt(id), Some(Hold(None, Some(t.wrapper))))
  {
  }

  lemma TaskDropped(w: Work, id: nat)
    requires id in w.tasks
    ensures SlotChanged(w, w.(tasks := w.tasks - {id}), TaskAt(id), None)
  {
  }

  lemma WrapCore(m: Mem, w: Work, inner: nat)
    requires CoreInv(m, w) && inner in m.ios && forall t :: t in w.tasks ==> w.tasks[t].inner != inner
    ensures CoreInv(NewIo(m, PendingIo()), w.(tasks := w.tasks[m.next := Task(m.next, inner)]))
  {
    var m' := NewIo(m, PendingIo());
    var w' := w.(tasks := w.tasks[m.next := Task(m.next, inner)]);
    TaskAdded(w, m.next, Task(m.next, inner));
    BalanceAdd(m, w, m', w', TaskAt(m.next), Hold(None, Some(m.next)));
    TaskJoins(m, w.tasks, m', Task(m.next, inner));
    TablesShape(m, w, m', w');
  }

  lemma TaskJoins(m: Mem, tasks: map<nat, Task>, m': Mem, t: Task)
    requires TasksValid(m, tasks) && m.next < m'.next && m.ios.Keys <= m'.ios.Keys && t.inner in m'.ios
    requires forall u :: u in tasks ==> tasks[u].inner != t.inner
    ensures TasksValid(m', tasks[m.next := t])
  {
  }

  lemma WrapInv(e: Engine, r: (Engine, Reply))
    requires Inv(e) && Submitted(e, r)
    ensures Inv(Wrap(r).0)
  {
    if r.1.status == Ok && r.1.handle.Some? {
      var e' := r.0;
      var inner := r.1.handle.value;
      forall t | t in e'.work.tasks
        ensures e'.work.tasks[t].inner != inner
      {
        assert e'.work.tasks[t].inner in e.mem.ios;
      }
      WrapCore(e'.mem, e'.work, inner);
      OwnersKeep(e', Wrap(r).0);
    }
  }

  lemma ReadToHbmSubmits(e: Engine, client: nat, block: Block, dst: nat, dstOffset: nat)
    requires Inv(e) && dst in e.mem.buffers
    ensures Submitted(e, ReadToHbm(e, client, block, dst, dstOffset))
  {
    var b := e.mem.buffers[dst];
    CompletedInv(e, Unsupported, 0, 0);
    if block.client == client && b.owner == client && ValidRange(e.mem, dst, dstOffset, |block.payload|) &&
      b.kind == SimHbm {
      var e1 := e.(mem := Store(e.mem, dst, dstOffset, block.payload));
      WriteInv(e, dst, dstOffset, block.payload);
      StoreKeeps(e.mem, dst, dstOffset, block.payload);
      CompletedInv(e1, Ok, |block.payload|, Checksum32(block.payload));
      assert ReadToHbm(e, client, block, dst, dstOffset) ==
             Completed(e1, Ok, |block.payload|, Checksum32(block.payload));
    }
  }

  /** A direct receive plan finds its destination alive, without the caller's help. */
  lemma TargetAlive(e: Engine, id: nat)
    requires Inv(e) && id in e.plans && e.plans[id].path == SimDirect && e.plans[id].role == TargetRecv
    ensures e.plans[id].dst.Some? && e.plans[id].dst.value in e.mem.buffers
  {
    var p := e.plans[id];
    assert PlanValid(e.work.windows, p);
    assert WindowValid(e.mem, e.work.windows[p.window.value]);
  }

  lemma ReadInv(e: Engine, client: nat, id: nat)
    requires Inv(e) && Legal(e, ERead(client, id))
    ensures Inv(Read(e, client, id).0)
  {
    var p := e.plans[id];
    var r := Read(e, client, id);
    if p.client != client {
      assert r.0 == e;
    } else if p.path == HostStaging {
      assert PlanValid(e.work.windows, p);
      var staged := ReadToHbm(e, client, e.blocks[p.block.value], p.dst.value, p.dstOffset);
      assert r == Wrap(staged);
      ReadToHbmSubmits(e, client, e.blocks[p.block.value], p.dst.value, p.dstOffset);
      WrapInv(e, staged);
    } else if p.path != SimDirect {
      CompletedInv(e, Unsupported, 0, 0);
    } else {
      DirectReadInv(e, client, id);
    }
  }

  lemma DirectReadInv(e: Engine, client: nat, id: nat)
    requires Inv(e) && client in e.clients && id in e.plans && e.plans[id].path == SimDirect
    requires e.plans[id].client == client
    requires e.plans[id].role == SourceSend ==> BlockLive(e, e.plans[id])
    ensures Inv(Read(e, client, id).0)
  {
    assert PlanValid(e.work.windows, e.plans[id]);
    if e.plans[id].role == SourceSend {
      SourceReadInv(e, client, id);
    } else {
      TargetReadInv(e, client, id);
    }
  }

  lemma SourceReadInv(e: Engine, client: nat, id: nat)
    requires Inv(e) && client in e.clients && id in e.plans && e.plans[id].path == SimDirect
    requires e.plans[id].client == client
    requires e.plans[id].role == SourceSend && BlockLive(e, e.plans[id])
    ensures Inv(Read(e, client, id).0)
  {
    var p := e.plans[id];
    var b := Buffer(client, e.blocks[p.block.value].payload, SimHbm, 0);
    var sent := SubmitTransfer(e, client, HcommPayload, SendRole, b, 0, 0, p.bytes, UInt8, p.peer);
    assert Read(e, client, id) == Wrap(sent);
    SubmitTransferInv(e, client, HcommPayload, SendRole, b, 0, 0, p.bytes, UInt8, p.peer);
    WrapInv(e, sent);
  }

  lemma TargetReadInv(e: Engine, client: nat, id: nat)
    requires Inv(e) && client in e.clients && id in e.plans && e.plans[id].path == SimDirect
    requires e.plans[id].client == client
    requires e.plans[id].role == TargetRecv
    ensures Inv(Read(e, client, id).0)
  {
    var p := e.plans[id];
    TargetAlive(e, id);
    var b := p.dst.value;
    var got := SubmitTransfer(e, client, HcommPayload, RecvRole, e.mem.buffers[b], b, p.dstOffset, p.bytes, UInt8,
                              p.peer);
    assert Read(e, client, id) == Wrap(got);
    SubmitTransferInv(e, client, HcommPayload, RecvRole, e.mem.buffers[b], b, p.dstOffset, p.bytes, UInt8, p.peer);
    WrapInv(e, got);
  }

  lemma InnerFreed(m: Mem, w: Work, io: nat)
    requires Balanced(m, w) && io in m.ios && m.ios[io].done
    ensures Balanced(m.(ios := m.ios - {io}), w)
  {
    BalanceSame(m, w, m.(ios := m.ios - {io}), w);
  }

  lemma ForwardCore(m: Mem, w: Work, id: nat)
    requires CoreInv(m, w) && id in w.tasks && m.ios[w.tasks[id].inner].done
    ensures var t, io := w.tasks[id], m.ios[w.tasks[id].inner];
            CoreInv(FinishIo(m.(ios := m.ios - {t.inner}), t.wrapper, io.status, io.bytes, io.checksum),
                    w.(tasks := w.tasks - {id}))
  {
    var t, io := w.tasks[id], m.ios[w.tasks[id].inner];
    var m1 := m.(ios := m.ios - {t.inner});
    var m' := FinishIo(m1, t.wrapper, io.status, io.bytes, io.checksum);
    var w' := w.(tasks := w.tasks - {id});
    InnerFreed(m, w, t.inner);
    HeldReferences(m1, w, TaskAt(id), Hold(None, Some(t.wrapper)));
    IoSettled(m1, t.wrapper, io.status, io.bytes, io.checksum);
    TaskDropped(w, id);
    BalanceDrop(m1, w, m', w', TaskAt(id), Hold(None, Some(t.wrapper)));
    TablesShape(m, w, m', w');
  }

  lemma ForwardInv(e: Engine, id: nat)
    requires Inv(e) && Legal(e, EForward(id))
    ensures Inv(Forward(e, id))
  {
    ForwardCore(e.mem, e.work, id);
    OwnersKeep(e, Forward(e, id));
  }

  // ---------------------------------------------------------------------------
  // RoCE workers

  function SetWorker(w: Work, id: nat, k: Worker): Work { w.(workers := w.workers[id := k]) }

  function DropWorker(w: Work, id: nat): Work { w.(workers := w.workers - {id}) }

  lemma WorkerSet(w: Work, id: nat, k: Worker)
    ensures SlotChanged(w, SetWorker(w, id, k), WorkerAt(id), Some(Hold(k.buffer, Some(k.io))))
    ensures id in w.workers ==> SlotChanged(w, DropWorker(w, id), WorkerAt(id), None)
  {
  }

  lemma StartCore(m: Mem, w: Work, b: nat)
    requires CoreInv(m, w) && b in m.buffers
    ensures CoreInv(Booked(m, b), SetWorker(w, m.next, Worker(Some(b), m.next)))
  {
    var m', w' := Booked(m, b), SetWorker(w, m.next, Worker(Some(b), m.next));
    WorkerSet(w, m.next, Worker(Some(b), m.next));
    BookedKeeps(m, b);
    BalanceAdd(m, w, m', w', WorkerAt(m.next), Hold(Some(b), Some(m.next)));
    TablesShape(m, w, m', w');
  }

  /** A worker gives its buffer back and keeps its IO. */
  lemma ReleaseCore(m: Mem, w: Work, id: nat, b: nat)
    requires CoreInv(m, w) && id in w.workers && w.workers[id].buffer == Some(b)
    ensures CoreInv(ReleaseBuffer(m, b), SetWorker(w, id, w.workers[id].(buffer := None)))
  {
    var k := w.workers[id];
    var m', w' := ReleaseBuffer(m, b), SetWorker(w, id, k.(buffer := None));
    HeldReferences(m, w, WorkerAt(id), Hold(Some(b), Some(k.io)));
    WorkerSet(w, id, k.(buffer := None));
    BufferCountMoves(m, b);
    BalanceUnhold(m, w, m', w', WorkerAt(id), b, k.io);
    TablesShape(m, w, m', w');
  }

  lemma BalanceUnhold(m: Mem, w: Work, m': Mem, w': Work, slot: Slot, b: nat, io: nat)
    requires Balanced(m, w) && HoldAt(w, slot) == Some(Hold(Some(b), Some(io)))
    requires SlotChanged(w, w', slot, Some(Hold(None, Some(io))))
    requires m'.ios == m.ios && m'.next == m.next && m'.fault == m.fault && CountsMoved(m, m', Some(b), -1)
    ensures Balanced(m', w')
  {
    forall a | a in m'.buffers
      ensures m'.buffers[a].pending == |BufferHolders(w', a)|
    {
      HoldersChanged(w, w', slot, Some(Hold(None, Some(io))), a);
      BufferHolder(w, slot, a);
    }
    forall s, a | HoldsBuffer(w', s, a)
      ensures a in m'.buffers
    {
      assert HoldsBuffer(w, s, a);
    }
    forall s, i
      ensures HoldsIo(w', s, i) == HoldsIo(w, s, i)
    {
    }
  }

  lemma FinishCore(m: Mem, w: Work, id: nat, status: Status, bytes: nat, checksum: bv32)
    requires CoreInv(m, w) && id in w.workers && w.workers[id].buffer == None
    ensures CoreInv(FinishIo(m, w.workers[id].io, status, bytes, checksum), DropWorker(w, id))
  {
    var io := w.workers[id].io;
    var m', w' := FinishIo(m, io, status, bytes, checksum), DropWorker(w, id);
    HeldReferences(m, w, WorkerAt(id), Hold(None, Some(io)));
    WorkerSet(w, id, w.workers[id]);
    IoSettled(m, io, status, bytes, checksum);
    BalanceDrop(m, w, m', w', WorkerAt(id), Hold(None, Some(io)));
    TablesShape(m, w, m', w');
  }

  lemma StartInv(e: Engine, b: nat)
    requires Inv(e) && b in e.mem.buffers
    ensures Inv(StartWorker(e, b).0)
  {
    StartCore(e.mem, e.work, b);
  }

  lemma ReleasesInv(e: Engine, id: nat)
    requires Inv(e) && id in e.work.workers
    ensures Inv(WorkerReleases(e, id))
  {
    match e.work.workers[id].buffer
    case None =>
    case Some(b) => ReleaseCore(e.mem, e.work, id, b);
  }

  lemma FinishesInv(e: Engine, id: nat, status: Status, bytes: nat, checksum: bv32)
    requires Inv(e) && id in e.work.workers && e.work.workers[id].buffer == None
    ensures Inv(WorkerFinishes(e, id, status, bytes, checksum))
  {
    FinishCore(e.mem, e.work, id, status, bytes, checksum);
  }

  // ---------------------------------------------------------------------------
  // Runs

  /** Calls about clients, buffers and IOs. */
  predicate BasicEvent(ev: Event) {
    ev.EOpen? || ev.EAttach? || ev.ENewBuffer? || ev.EFreeBuffer? || ev.EWrite? || ev.EFreeIo?
  }

  predicate Submission(ev: Event) { ev.ECollective? || ev.ETransfer? }

  /** Steps of the library's own threads. */
  predicate ThreadEvent(ev: Event) { ev.EForward? || ev.EStartWorker? || ev.EWorkerReleases? || ev.EWorkerFinishes? }

  lemma BasicInv(f: Reducer, e: Engine, ev: Event)
    requires Inv(e) && Legal(e, ev) && BasicEvent(ev)
    ensures Inv(Step(f, e, ev).0)
  {
    match ev
    case EOpen(client) => OpenInv(e, client);
    case EAttach(client, comm, rank, size) => AttachInv(e, client, comm, rank, size);
    case ENewBuffer(client, bytes, kind) => NewBufferInv(e, client, bytes, kind);
    case EFreeBuffer(b) => FreeBufferInv(e, b);
    case EWrite(b, offset, data) => WriteInv(e, b, offset, data);
    case EFreeIo(io) => FreeIoInv(e, io);
  }

  lemma SubmissionInv(f: Reducer, e: Engine, ev: Event)
    requires Inv(e) && Legal(e, ev) && Submission(ev)
    ensures Inv(Step(f, e, ev).0)
  {
    match ev
    case ECollective(client, kind, dst, dstOffset, src, srcOffset, count, dtype, op) =>
      SubmitCollectiveInv(f, e, client, kind, dst, dstOffset, src, srcOffset, count, dtype, op);
    case ETransfer(client, table, role, b, offset, count, dtype, peer) =>
      SubmitTransferInv(e, client, table, role, e.mem.buffers[b], b, offset, count, dtype, peer);
  }

  lemma StorageInv(f: Reducer, e: Engine, ev: Event)
    requires Inv(e) && Legal(e, ev) && !BasicEvent(ev) && !Submission(ev) && !ThreadEvent(ev)
    ensures Inv(Step(f, e, ev).0)
  {
    match ev
    case EPrepare(client, payload) => PrepareInv(e, client, payload);
    case EFreeBlock(b) =>
    case ERegister(client, b, offset, len) => RegisterInv(e, client, b, offset, len);
    case EUnregister(w) => UnregisterInv(e, w);
    case ECreatePlan(client, block, dst, dstOffset, o) => CreatePlanInv(e, client, block, dst, dstOffset, o);
    case EFreePlan(p) => FreePlanInv(e, p);
    case ERead(client, p) => ReadInv(e, client, p);
  }

  lemma ThreadInv(f: Reducer, e: Engine, ev: Event)
    requires Inv(e) && Legal(e, ev) && ThreadEvent(ev)
    ensures Inv(Step(f, e, ev).0)
  {
    match ev
    case EForward(t) => ForwardInv(e, t);
    case EStartWorker(b) => StartInv(e, b);
    case EWorkerReleases(k) => ReleasesInv(e, k);
    case EWorkerFinishes(k, status, bytes, checksum) => FinishesInv(e, k, status, bytes, checksum);
  }

  lemma StepInv(f: Reducer, e: Engine, ev: Event)
    requires Inv(e) && Legal(e, ev)
    ensures Inv(Step(f, e, ev).0)
  {
    if BasicEvent(ev) {
      BasicInv(f, e, ev);
    } else if Submission(ev) {
      SubmissionInv(f, e, ev);
    } else if ThreadEvent(ev) {
      ThreadInv(f, e, ev);
    } else {
      StorageInv(f, e, ev);
    }
  }

  /** Clients and the tables of pending transfers and collectives are as before. */
  predicate SameTables(e: Engine, e': Engine) {
    e'.clients == e.clients && e'.work.pairs == e.work.pairs && e'.work.colls == e.work.colls
  }

  lemma BasicTables(f: Reducer, e: Engine, ev: Event)
    requires Legal(e, ev) && BasicEvent(ev) && !ev.EOpen? && !ev.EAttach?
    ensures SameTables(e, Step(f, e, ev).0)
  {
  }

  lemma ThreadTables(f: Reducer, e: Engine, ev: Event)
    requires Legal(e, ev) && ThreadEvent(ev)
    ensures SameTables(e, Step(f, e, ev).0)
  {
  }

  lemma StorageTables(f: Reducer, e: Engine, ev: Event)
    requires Legal(e, ev) && !BasicEvent(ev) && !Submission(ev) && !ThreadEvent(ev) && !ev.ERead?
    ensures SameTables(e, Step(f, e, ev).0)
  {
  }

  /** Only attaching, opening, submitting and reading change them. */
  lemma QuietTables(f: Reducer, e: Engine, ev: Event)
    requires Legal(e, ev) && !Submission(ev) && !ev.ERead? && !ev.EAttach? && !ev.EOpen?
    ensures SameTables(e, Step(f, e, ev).0)
  {
    if BasicEvent(ev) {
      BasicTables(f, e, ev);
    } else if ThreadEvent(ev) {
      ThreadTables(f, e, ev);
    } else {
      StorageTables(f, e, ev);
    }
  }

  lemma {:induction false} RunInv(f: Reducer, e: Engine, events: seq<Event>, e': Engine)
    requires Inv(e) && Run(f, e, events, e')
    ensures Inv(e')
    decreases |events|
  {
    if events != [] {
      StepInv(f, e, events[0]);
      RunInv(f, Step(f, e, events[0]).0, events[1..], e');
    }
  }
}
