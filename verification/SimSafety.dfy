/** What the engine invariant means for callers: references always balance, nothing in use
    is ever freed, and plans keep their windows and destinations alive. */
module SimSafety {
  import opened Common
  import opened SimState
  import opened SimLedger
  import opened SimCollective
  import opened SimArrive
  import opened SimEngine
  import opened SimEngineInv
  import opened SimRuns

  lemma EmptyInv()
    ensures Inv(EMPTY)
  {
    forall s
      ensures HoldAt(EMPTY.work, s) == None
    {
    }
  }

  /** Whether an IO is in exactly one slot. */
  ghost predicate HeldOnce(w: Work, io: nat) {
    exists s :: HoldsIo(w, s, io) && forall t :: HoldsIo(w, t, io) ==> t == s
  }

  /** The reference theorem. In every reachable state: no step has touched a released handle
      or dropped a reference it did not hold; each buffer's count is the number of pending
      receive and destination slots, target windows and RoCE workers that name it; an IO's
      count is one exactly while one slot holds it, and that is exactly while it is pending;
      and every slot names only live buffers and IOs. */
  lemma ReferencesBalance(f: Reducer, events: seq<Event>, e: Engine)
    requires Run(f, EMPTY, events, e)
    ensures !e.mem.fault
    ensures forall b :: b in e.mem.buffers ==> e.mem.buffers[b].pending == |BufferHolders(e.work, b)|
    ensures forall io :: io in e.mem.ios ==>
              && (e.mem.ios[io].refs == 1 <==> HeldOnce(e.work, io))
              && (e.mem.ios[io].refs == 0 || e.mem.ios[io].refs == 1)
              && (e.mem.ios[io].done <==> e.mem.ios[io].refs == 0)
    ensures forall s, b :: HoldsBuffer(e.work, s, b) ==> b in e.mem.buffers
    ensures forall s, io :: HoldsIo(e.work, s, io) ==> io in e.mem.ios
  {
    EmptyInv();
    RunInv(f, EMPTY, events, e);
    forall io | io in e.mem.ios
      ensures e.mem.ios[io].refs == 1 <==> HeldOnce(e.work, io)
    {
      if e.mem.ios[io].refs == 1 {
        var s :| HoldsIo(e.work, s, io);
        assert forall t :: HoldsIo(e.work, t, io) ==> t == s;
      }
    }
  }

  /** The library frees a buffer exactly when no slot names it. */
  lemma FreeExactly(e: Engine, b: nat)
    requires Inv(e) && b in e.mem.buffers
    ensures FreeBuffer(e, b).1.status == Ok <==> forall s :: !HoldsBuffer(e.work, s, b)
  {
    if e.mem.buffers[b].pending == 0 {
      forall s
        ensures !HoldsBuffer(e.work, s, b)
      {
        Unheld(e.mem, e.work, b, s);
      }
    } else {
      var s :| s in BufferHolders(e.work, b);
      BufferHolder(e.work, s, b);
    }
  }

  // ---------------------------------------------------------------------------
  // What callers owe

  /** A read of a live plan touches freed memory exactly when the plan sends or stages a block
      that has been released, or stages to a destination that has been released. */
  lemma ReadFaultsExactly(e: Engine, client: nat, id: nat)
    requires Inv(e) && client in e.clients && id in e.plans
    ensures Read(e, client, id).0.mem.fault <==> !Readable(e, client, e.plans[id])
  {
    assert PlanValid(e.work.windows, e.plans[id]);
    if Readable(e, client, e.plans[id]) {
      ReadInv(e, client, id);
    }
  }

  /** So in every state that legal calls reach, that read is the only call that can go wrong. */
  lemma CallsFaultExactly(f: Reducer, events: seq<Event>, e: Engine, ev: Event)
    requires Run(f, EMPTY, events, e) && Callable(e, ev)
    ensures Step(f, e, ev).0.mem.fault <==> ev.ERead? && !Readable(e, ev.client, e.plans[ev.plan])
  {
    EmptyInv();
    RunInv(f, EMPTY, events, e);
    if ev.ERead? {
      ReadFaultsExactly(e, ev.client, ev.plan);
    } else {
      StepInv(f, e, ev);
    }
  }

  // ---------------------------------------------------------------------------
  // Plans

  /** In every reachable state, a plan's window cannot be released and neither can the buffer
      behind it; a direct receive plan's destination is that buffer, and its range lies inside
      the window and inside the buffer; a plan that requires the direct path or forbids
      staging is never host-staged. */
  lemma PlansKeepTargets(f: Reducer, events: seq<Event>, e: Engine, id: nat)
    requires Run(f, EMPTY, events, e) && id in e.plans
    ensures var p := e.plans[id];
            && (p.window.Some? ==>
                  && p.window.value in e.work.windows
                  && ReleaseWindow(e, p.window.value) == (e, Reply(InvalidArgument, None))
                  && e.work.windows[p.window.value].buffer in e.mem.buffers
                  && FreeBuffer(e, e.work.windows[p.window.value].buffer) == (e, Reply(InvalidArgument, None)))
            && (p.path == SimDirect && p.role == TargetRecv ==>
                  && p.window.Some? && p.dst == Some(e.work.windows[p.window.value].buffer)
                  && e.work.windows[p.window.value].offset <= p.dstOffset
                  && p.dstOffset + p.bytes <= e.work.windows[p.window.value].offset + e.work.windows[p.window.value].len
                  && p.dstOffset + p.bytes <= |e.mem.buffers[p.dst.value].bytes|)
            && (p.requireDirect || !p.allowStaging ==> p.path != HostStaging)
  {
    EmptyInv();
    RunInv(f, EMPTY, events, e);
    WindowPinned(e, id);
  }

  lemma WindowPinned(e: Engine, id: nat)
    requires Inv(e) && id in e.plans
    ensures PlanValid(e.work.windows, e.plans[id])
    ensures var p := e.plans[id];
            p.window.Some? ==>
              && WindowValid(e.mem, e.work.windows[p.window.value])
              && ReleaseWindow(e, p.window.value) == (e, Reply(InvalidArgument, None))
              && FreeBuffer(e, e.work.windows[p.window.value].buffer) == (e, Reply(InvalidArgument, None))
  {
    var p := e.plans[id];
    assert PlanValid(e.work.windows, p);
    if p.window.Some? {
      var w := p.window.value;
      WindowReferred(e.plans, e.work.windows, e.mem.next, id);
      WindowHolds(e.mem, e.work, w);
    }
  }

  lemma WindowReferred(plans: map<nat, Plan>, windows: map<nat, Window>, next: nat, id: nat)
    requires PlansInv(plans, windows, next) && id in plans && plans[id].window.Some?
    ensures plans[id].window.value in windows && windows[plans[id].window.value].planRefs > 0
  {
    assert id in PlansOn(plans, plans[id].window.value);
  }

  lemma WindowHolds(m: Mem, work: Work, w: nat)
    requires CoreInv(m, work) && w in work.windows
    ensures WindowValid(m, work.windows[w])
    ensures work.windows[w].buffer in m.buffers && m.buffers[work.windows[w].buffer].pending > 0
  {
    HeldReferences(m, work, WindowAt(w), Hold(Some(work.windows[w].buffer), None));
  }

  /** A step leaves live plans, and the windows they name, as they are. */
  predicate PlansPersist(e: Engine, e': Engine) {
    && e.mem.next <= e'.mem.next
    && (forall p :: p in e.plans && p in e'.plans ==> e'.plans[p] == e.plans[p])
    && (forall p :: p in e'.plans && p < e.mem.next ==> p in e.plans)
    && (forall w :: w in e.work.windows && w in e'.work.windows ==>
        e'.work.windows[w].buffer == e.work.windows[w].buffer)
    && (forall w :: w in e'.work.windows && w < e.mem.next ==> w in e.work.windows)
  }

  lemma OwnersPersist(e: Engine, e': Engine)
    requires SameOwners(e, e')
    ensures PlansPersist(e, e')
  {
  }

  lemma WrapPersists(e: Engine, r: (Engine, Reply))
    requires SameOwners(e, r.0)
    ensures SameOwners(e, Wrap(r).0)
  {
  }

  lemma CollectivePersists(
    f: Reducer, e: Engine, client: nat, kind: CollKind, dst: nat, dstOffset: nat, src: nat, srcOffset: nat,
    count: nat, dtype: DataType, op: ReduceOp)
    requires Inv(e) && client in e.clients && dst in e.mem.buffers && src in e.mem.buffers
    ensures SameOwners(e, SubmitCollective(f, e, client, kind, dst, dstOffset, src, srcOffset, count, dtype, op).0)
  {
    DecidedArrival(e.clients[client], e.mem, kind, dst, dstOffset, src, srcOffset, count, dtype, op);
    var e' := SubmitCollective(f, e, client, kind, dst, dstOffset, src, srcOffset, count, dtype, op).0;
    match DecideCollective(e.clients[client], e.mem, kind, dst, dstOffset, src, srcOffset, count, dtype, op)
    case Reject(status) => assert e' == e;
    case Complete(status) => assert e' == Completed(e, status, 0, 0).0;
    case Join(q) =>
      assert e' == JoinCollective(f, e, client, q, dst, dstOffset).0;
      JoinPersists(f, e, client, q, dst, dstOffset);
  }

  lemma JoinPersists(f: Reducer, e: Engine, client: nat, q: CollRequest, dst: nat, offset: nat)
    requires Inv(e) && client in e.clients
    requires ArrivalOk(e.mem, q.key, q.params, e.clients[client].rank, q.payload, dst, offset)
    ensures SameOwners(e, JoinCollective(f, e, client, q, dst, offset).0)
  {
    ArriveCore(f, CoreOf(e), q.key, q.params, e.clients[client].rank, q.payload, dst, offset);
  }

  lemma ReadPersists(e: Engine, client: nat, id: nat)
    requires Inv(e) && Legal(e, ERead(client, id))
    ensures SameOwners(e, Read(e, client, id).0)
  {
    var p := e.plans[id];
    var r := Read(e, client, id);
    if p.client == client && p.path == HostStaging {
      assert PlanValid(e.work.windows, p);
      var staged := ReadToHbm(e, client, e.blocks[p.block.value], p.dst.value, p.dstOffset);
      assert r == Wrap(staged);
      ReadToHbmSubmits(e, client, e.blocks[p.block.value], p.dst.value, p.dstOffset);
      WrapPersists(e, staged);
    } else if p.client == client && p.path == SimDirect && p.role == SourceSend {
      var b := Buffer(client, e.blocks[p.block.value].payload, SimHbm, 0);
      var sent := SubmitTransfer(e, client, HcommPayload, SendRole, b, 0, 0, p.bytes, UInt8, p.peer);
      assert r == Wrap(sent);
      SubmitTransferInv(e, client, HcommPayload, SendRole, b, 0, 0, p.bytes, UInt8, p.peer);
      WrapPersists(e, sent);
    } else if p.client == client && p.path == SimDirect && p.role == TargetRecv {
      TargetAlive(e, id);
      var b := p.dst.value;
      var got := SubmitTransfer(e, client, HcommPayload, RecvRole, e.mem.buffers[b], b, p.dstOffset, p.bytes, UInt8,
                                p.peer);
      assert r == Wrap(got);
      SubmitTransferInv(e, client, HcommPayload, RecvRole, e.mem.buffers[b], b, p.dstOffset, p.bytes, UInt8, p.peer);
      WrapPersists(e, got);
    }
  }

  lemma PlanRefsPersist(e: Engine, window: Option<nat>, delta: int)
    requires window.Some? ==> window.value in e.work.windows
    ensures var w' := MovePlanRefs(e.work, window, delta).windows;
            w'.Keys == e.work.windows.Keys && forall w :: w in w' ==> w'[w].buffer == e.work.windows[w].buffer
  {
  }

  lemma CreatePersists(e: Engine, client: nat, block: Option<nat>, dst: Option<nat>, dstOffset: nat, o: DirectOptions)
    requires Inv(e) && Legal(e, ECreatePlan(client, block, dst, dstOffset, o))
    ensures PlansPersist(e, CreatePlan(e, client, block, dst, dstOffset, o).0)
  {
    PlanRefsPersist(e, o.window, 1);
  }

  lemma FreePersists(e: Engine, id: nat)
    requires Inv(e) && id in e.plans
    ensures PlansPersist(e, FreePlan(e, id).0)
  {
    WindowPinned(e, id);
    PlanRefsPersist(e, e.plans[id].window, -1);
  }

  lemma RegisterPersists(e: Engine, client: nat, b: nat, offset: nat, len: nat)
    requires WindowsValid(e.mem, e.work.windows) && b in e.mem.buffers
    ensures PlansPersist(e, RegisterWindow(e, client, b, offset, len).0)
  {
  }

  predicate SamePlans(e: Engine, e': Engine) {
    e'.plans == e.plans && e'.work.windows == e.work.windows && e.mem.next <= e'.mem.next
  }

  lemma SamePersists(e: Engine, e': Engine)
    requires SamePlans(e, e')
    ensures PlansPersist(e, e')
  {
  }

  lemma QuietPlans(f: Reducer, e: Engine, ev: Event)
    requires Legal(e, ev) && !ev.ECollective? && !ev.ETransfer? && !ev.ERead? && !ev.ECreatePlan? && !ev.EFreePlan?
    requires !ev.ERegister? && !ev.EUnregister?
    ensures SamePlans(e, Step(f, e, ev).0)
  {
    if BasicEvent(ev) {
      BasicPlans(f, e, ev);
    } else if ThreadEvent(ev) {
      ThreadPlans(f, e, ev);
    }
  }

  lemma BasicPlans(f: Reducer, e: Engine, ev: Event)
    requires Legal(e, ev) && BasicEvent(ev)
    ensures SamePlans(e, Step(f, e, ev).0)
  {
  }

  lemma ThreadPlans(f: Reducer, e: Engine, ev: Event)
    requires Legal(e, ev) && ThreadEvent(ev)
    ensures SamePlans(e, Step(f, e, ev).0)
  {
  }

  lemma UnregisterPersists(e: Engine, id: nat)
    requires id in e.work.windows
    ensures PlansPersist(e, ReleaseWindow(e, id).0)
  {
  }

  lemma SubmissionPersists(f: Reducer, e: Engine, ev: Event)
    requires Inv(e) && Legal(e, ev) && (ev.ECollective? || ev.ETransfer? || ev.ERead?)
    ensures SameOwners(e, Step(f, e, ev).0)
  {
    match ev
    case ECollective(client, kind, dst, dstOffset, src, srcOffset, count, dtype, op) =>
      CollectivePersists(f, e, client, kind, dst, dstOffset, src, srcOffset, count, dtype, op);
    case ETransfer(client, table, role, b, offset, count, dtype, peer) =>
      SubmitTransferInv(e, client, table, role, e.mem.buffers[b], b, offset, count, dtype, peer);
    case ERead(client, p) => ReadPersists(e, client, p);
  }

  lemma StepPersists(f: Reducer, e: Engine, ev: Event)
    requires Inv(e) && Legal(e, ev)
    ensures PlansPersist(e, Step(f, e, ev).0)
  {
    if ev.ECollective? || ev.ETransfer? || ev.ERead? {
      SubmissionPersists(f, e, ev);
      OwnersPersist(e, Step(f, e, ev).0);
    } else if ev.ECreatePlan? {
      CreatePersists(e, ev.client, ev.source, ev.target, ev.offset, ev.options);
    } else if ev.EFreePlan? {
      FreePersists(e, ev.plan);
    } else {
      OtherPersists(f, e, ev);
    }
  }

  lemma OtherPersists(f: Reducer, e: Engine, ev: Event)
    requires WindowsValid(e.mem, e.work.windows) && Legal(e, ev)
    requires !ev.ECollective? && !ev.ETransfer? && !ev.ERead? && !ev.ECreatePlan? && !ev.EFreePlan?
    ensures PlansPersist(e, Step(f, e, ev).0)
  {
    if ev.ERegister? {
      RegisterPersists(e, ev.client, ev.buffer, ev.offset, ev.len);
    } else if ev.EUnregister? {
      UnregisterPersists(e, ev.window);
    } else {
      QuietPlans(f, e, ev);
      SamePersists(e, Step(f, e, ev).0);
    }
  }

  /** A plan that is still alive after a run is the same plan, on the same buffer. */
  lemma {:induction false} PlanSurvives(f: Reducer, e: Engine, events: seq<Event>, e': Engine, id: nat)
    requires Inv(e) && Run(f, e, events, e') && id in e.plans && id in e'.plans && e.plans[id].window.Some?
    ensures Inv(e') && e'.plans[id] == e.plans[id]
    ensures var w := e.plans[id].window.value;
            && w in e.work.windows && w in e'.work.windows
            && e'.work.windows[w].buffer == e.work.windows[w].buffer
            && e'.work.windows[w].buffer in e'.mem.buffers
    decreases |events|
  {
    RunInv(f, e, events, e');
    WindowPinned(e, id);
    if events != [] {
      var e1 := Step(f, e, events[0]).0;
      StepInv(f, e, events[0]);
      StepPersists(f, e, events[0]);
      PlanPresent(f, e1, events[1..], e', id);
      WindowPinned(e1, id);
      PlanSurvives(f, e1, events[1..], e', id);
    }
  }

  /** Plan handles are not reused, so a plan alive at the end was alive all along. */
  lemma {:induction false} PlanPresent(f: Reducer, e: Engine, events: seq<Event>, e': Engine, id: nat)
    requires Inv(e) && Run(f, e, events, e') && id < e.mem.next && id in e'.plans
    ensures id in e.plans
    decreases |events|
  {
    if events != [] {
      StepInv(f, e, events[0]);
      StepPersists(f, e, events[0]);
      PlanPresent(f, Step(f, e, events[0]).0, events[1..], e', id);
    }
  }
}
