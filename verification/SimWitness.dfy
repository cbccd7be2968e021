/** Concrete runs: one leaves a live plan without its destination, one reaches the state the
    direct-read theorem starts from, and one shows a short plan and host staging disagree. */
module SimWitness {
  import opened Common
  import opened SimState
  import opened SimCollective
  import opened SimCollectiveInv
  import opened SimEngine
  import opened SimEngineInv
  import opened SimRuns
  import opened SimSafety
  import opened SimFifo
  import opened SimPassage
  import opened SimDirect
  import opened SimDrain

  function Rank(r: nat): Client { Client(true, "c", r, 2, map[]) }

  function Cell(owner: nat, pending: int): Buffer { Buffer(owner, [0], SimHbm, pending) }

  function Idle(windows: map<nat, Window>): Work { Work(map[], map[], windows, map[], map[]) }

  lemma Further(f: Reducer, e: Engine, ev: Event, e': Engine)
    requires Reaches(f, EMPTY, e) && Legal(e, ev) && e' == Step(f, e, ev).0
    ensures Reaches(f, EMPTY, e')
  {
    ReachesStep(f, e, ev);
    ReachesThen(f, EMPTY, e, e');
  }

  lemma ReachedInv(f: Reducer, e: Engine)
    requires Reaches(f, EMPTY, e)
    ensures Inv(e)
  {
    var events :| Run(f, EMPTY, events, e);
    EmptyInv();
    RunInv(f, EMPTY, events, e);
  }

  // ---------------------------------------------------------------------------
  // A plan without its destination

  const STAGING := DirectOptions(HostStaging, StagingRole, None, 0, 0, false, true)

  function Staged(): Plan { Plan(0, Some(1), Some(0), None, 0, HostStaging, StagingRole, 0, false, true, 1) }

  function Alone(): Engine { Engine(map[0 := Rank(0)], Mem(map[], map[], 0, false), Idle(map[]), map[], map[]) }

  function WithCell(): Engine { Alone().(mem := Mem(map[0 := Cell(0, 0)], map[], 1, false)) }

  function WithBlock(): Engine {
    Alone().(mem := Mem(map[0 := Cell(0, 0)], map[], 2, false), blocks := map[1 := Block(0, [0])])
  }

  function WithPlan(): Engine {
    WithBlock().(mem := Mem(map[0 := Cell(0, 0)], map[], 3, false), plans := map[2 := Staged()])
  }

  function Dangling(): Engine { WithPlan().(mem := Mem(map[], map[], 3, false)) }

  lemma AloneReached(f: Reducer)
    ensures Reaches(f, EMPTY, Alone())
  {
    ReachesStep(f, EMPTY, EOpen(0));
    var joined := Open(EMPTY, 0).0;
    Further(f, joined, EAttach(0, "c", 0, 2), Alone());
  }

  lemma BlockReached(f: Reducer)
    ensures Reaches(f, EMPTY, WithBlock())
  {
    AloneReached(f);
    Further(f, Alone(), ENewBuffer(0, [0], SimHbm), WithCell());
    Further(f, WithCell(), EPrepare(0, [0]), WithBlock());
  }

  lemma PlanReached(f: Reducer)
    ensures Reaches(f, EMPTY, WithPlan())
  {
    BlockReached(f);
    Further(f, WithBlock(), ECreatePlan(0, Some(1), Some(0), 0, STAGING), WithPlan());
  }

  /** A host-staged plan without a window: its destination can be released under it, and
      reading the plan then touches freed memory. */
  lemma DanglingPlan(f: Reducer)
    ensures Reaches(f, EMPTY, Dangling())
    ensures 2 in Dangling().plans && Dangling().plans[2].dst == Some(0) && 0 !in Dangling().mem.buffers
    ensures Callable(Dangling(), ERead(0, 2)) && Step(f, Dangling(), ERead(0, 2)).0.mem.fault
  {
    PlanReached(f);
    var freed := FreeBuffer(WithPlan(), 0).0;
    assert freed.mem.buffers == map[];
    Further(f, WithPlan(), EFreeBuffer(0), Dangling());
  }

  // ---------------------------------------------------------------------------
  // Matching plans

  const SOURCE := DirectOptions(SimDirect, SourceSend, None, 1, 1, true, false)
  const TARGET := DirectOptions(SimDirect, TargetRecv, Some(1), 0, 1, true, false)

  function Two(): Engine { Alone().(clients := map[0 := Rank(0), 1 := Rank(1)]) }

  function Wide(owner: nat, pending: int): Buffer { Buffer(owner, [0, 0], SimHbm, pending) }

  function TwoCell(): Engine { Two().(mem := Mem(map[0 := Wide(1, 0)], map[], 1, false)) }

  function TwoWindow(): Engine {
    Two().(mem := Mem(map[0 := Wide(1, 1)], map[], 2, false), work := Idle(map[1 := Window(1, 0, 0, 1, 0)]))
  }

  function TwoBlock(): Engine {
    TwoWindow().(mem := Mem(map[0 := Wide(1, 1)], map[], 3, false), blocks := map[2 := Block(0, [7, 8])])
  }

  lemma TwoReached(f: Reducer)
    ensures Reaches(f, EMPTY, TwoCell())
  {
    AloneReached(f);
    var joined := Open(Alone(), 1).0;
    Further(f, Alone(), EOpen(1), joined);
    Further(f, joined, EAttach(1, "c", 1, 2), Two());
    Further(f, Two(), ENewBuffer(1, [0, 0], SimHbm), TwoCell());
  }

  lemma TwoBlockReached(f: Reducer)
    ensures Reaches(f, EMPTY, TwoBlock())
  {
    TwoReached(f);
    Further(f, TwoCell(), ERegister(1, 0, 0, 1), TwoWindow());
    Further(f, TwoWindow(), EPrepare(0, [7, 8]), TwoBlock());
  }

  lemma SourceAccepted(e: Engine)
    requires e == TwoBlock()
    ensures Legal(e, ECreatePlan(0, Some(2), None, 0, SOURCE))
    ensures var r := CreatePlan(e, 0, Some(2), None, 0, SOURCE);
            r.1 == Reply(Ok, Some(3)) && r.0.clients == e.clients && r.0.mem == Bump(e.mem) && r.0.work == e.work
  {
  }

  lemma TargetAccepted(e: Engine, e1: Engine)
    requires e == TwoBlock() && e1.clients == e.clients && e1.mem == Bump(e.mem) && e1.work == e.work
    ensures Legal(e1, ECreatePlan(1, None, Some(0), 0, TARGET))
    ensures var r := CreatePlan(e1, 1, None, Some(0), 0, TARGET);
            && r.1 == Reply(Ok, Some(4)) && r.0.mem == Bump(e1.mem)
            && 4 in r.0.plans && r.0.plans[4].dst == Some(0) && r.0.plans[4].dstOffset == 0
  {
  }

  /** Two ranks attach, one registers target memory, the other prepares a block, and both
      create direct plans: nothing is in flight and the plans match. */
  lemma MatchedIsReachable(f: Reducer) returns (e: Engine)
    ensures var d := Direction(HcommPayload, "c", 0, 1);
            Reaches(f, EMPTY, e) && Matched(e, d, 3, 4, [7]) && Sends(e.clients, d) == Recvs(e.clients, d) == 0
    ensures e.clients == Two().clients && e.mem.buffers == map[0 := Wide(1, 1)]
    ensures e.plans[4].dst == Some(0) && e.plans[4].dstOffset == 0
  {
    TwoBlockReached(f);
    var e0 := TwoBlock();
    SourceAccepted(e0);
    var e1 := CreatePlan(e0, 0, Some(2), None, 0, SOURCE).0;
    Further(f, e0, ECreatePlan(0, Some(2), None, 0, SOURCE), e1);
    TargetAccepted(e0, e1);
    e := CreatePlan(e1, 1, None, Some(0), 0, TARGET).0;
    Further(f, e1, ECreatePlan(1, None, Some(0), 0, TARGET), e);
    PlansMatch(f, e0, e1, e);
  }

  lemma PlansMatch(f: Reducer, e0: Engine, e1: Engine, e: Engine)
    requires e0 == TwoBlock() && Reaches(f, EMPTY, e0) && Legal(e0, ECreatePlan(0, Some(2), None, 0, SOURCE))
    requires CreatePlan(e0, 0, Some(2), None, 0, SOURCE) == (e1, Reply(Ok, Some(3))) && e1.mem.next == 4
    requires Legal(e1, ECreatePlan(1, None, Some(0), 0, TARGET))
    requires CreatePlan(e1, 1, None, Some(0), 0, TARGET) == (e, Reply(Ok, Some(4)))
    ensures var d := Direction(HcommPayload, "c", 0, 1);
            Matched(e, d, 3, 4, [7]) && Sends(e.clients, d) == Recvs(e.clients, d) == 0 && e.clients == e0.clients
  {
    ReachedInv(f, e0);
    Quiet(e0);
    CreatedPlansMatch(e0, e1, e, Direction(HcommPayload, "c", 0, 1), 2, SOURCE, 0, 0, TARGET, [7]);
  }

  lemma Quiet(e: Engine)
    requires e == TwoBlock()
    ensures var d := Direction(HcommPayload, "c", 0, 1);
            Duplex(e.clients, d) && FifoInv(e, d) && Sends(e.clients, d) == Recvs(e.clients, d) == 0
    ensures 0 in e.clients && 1 in e.clients && e.clients[0].rank == 0 && e.clients[1].rank == 1
    ensures 2 in e.blocks && e.blocks[2].payload == [7, 8]
  {
    FreshBacklog(e, Direction(HcommPayload, "c", 0, 1));
  }

  /** Reading plan 4 and staging the block to the same place leave different bytes. */
  predicate StagingDiffers(e: Engine, block: Bytes)
    requires Legal(e, ERead(1, 4))
  {
    0 in e.mem.buffers && !SameBytes(ReadToHbm(e, 1, Block(1, block), 0, 0).0.mem, Read(e, 1, 4).0.mem)
  }

  /** The source plan covers one byte of a two-byte block. Reading both plans moves that byte;
      staging the block moves both. */
  lemma ShortPlanDiffers(f: Reducer) returns (e: Engine, e1: Engine)
    ensures Reaches(f, EMPTY, e) && Matched(e, Direction(HcommPayload, "c", 0, 1), 3, 4, [7]) && Reads(e, 0, 3, e1)
    ensures Legal(e1, ERead(1, 4)) && StagingDiffers(e1, [7, 8])
  {
    e := MatchedIsReachable(f);
    var d := Direction(HcommPayload, "c", 0, 1);
    e1 := OneReadLater(e, d, 3, 4, [7]);
    assert Between(f, e1, [], e1, d);
    SourceThenTarget(f, e, e1, [], e1, d, 3, 4, [7]);
    AgreesOnWholeBlock(e1, Read(e1, 1, 4).0.mem, 1, 0, 4, [7], [7, 8]);
  }

  lemma OneReadLater(e: Engine, d: Direction, s: nat, t: nat, payload: Bytes) returns (e1: Engine)
    requires Matched(e, d, s, t, payload) && Sends(e.clients, d) == Recvs(e.clients, d)
    ensures Reads(e, d.sender, s, e1) && Duplex(e1.clients, d) && Recvs(e1.clients, d) == Recvs(e.clients, d)
    ensures Inv(e1) && SameBytes(e.mem, e1.mem) && e1.plans == e.plans
  {
    NextEntries(e, d);
    var k := Key(e.clients, d, Sends(e.clients, d));
    SourceReads(e, d.sender, e.clients[d.receiver].rank, s, payload, k);
    e1 := Read(e, d.sender, s).0;
    ReadPasses(e, d, d.sender, s);
    SourceFirst(e, e1, d.sender, e.clients[d.receiver].rank, s, payload, k);
  }
}
