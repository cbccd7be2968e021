/** An entry of a direction stays as it is over any run in which neither side takes its
    number, whatever else happens. */
module SimPassage {
  import opened SimState
  import opened SimCollective
  import opened SimArrive
  import opened SimEngine
  import opened SimEngineInv
  import opened SimRuns
  import opened SimFifo

  /** Neither side of the direction has taken number `i` between the two states. */
  predicate Untaken(e: Engine, e': Engine, d: Direction, i: nat)
    requires Duplex(e.clients, d) && Duplex(e'.clients, d)
  {
    && !(Sends(e.clients, d) <= i < Sends(e'.clients, d))
    && !(Recvs(e.clients, d) <= i < Recvs(e'.clients, d))
  }

  predicate SameRanks(e: Engine, e': Engine, d: Direction)
    requires Duplex(e.clients, d) && Duplex(e'.clients, d)
  {
    && e'.clients[d.sender].rank == e.clients[d.sender].rank
    && e'.clients[d.receiver].rank == e.clients[d.receiver].rank
  }

  predicate SameAt(pairs: map<PairKey, PendingPair>, pairs': map<PairKey, PendingPair>, k: PairKey) {
    (k in pairs' <==> k in pairs) && (k in pairs ==> pairs'[k] == pairs[k])
  }

  /** Counters only grow, and entries whose number nobody takes stay. */
  ghost predicate Passes(e: Engine, e': Engine, d: Direction) {
    && Duplex(e.clients, d) && Duplex(e'.clients, d) && SameRanks(e, e', d)
    && Sends(e.clients, d) <= Sends(e'.clients, d) && Recvs(e.clients, d) <= Recvs(e'.clients, d)
    && (forall i: nat :: Untaken(e, e', d, i) ==> SameAt(e.work.pairs, e'.work.pairs, Key(e.clients, d, i)))
  }

  lemma PassesThen(a: Engine, b: Engine, c: Engine, d: Direction)
    requires Passes(a, b, d) && Passes(b, c, d)
    ensures Passes(a, c, d)
  {
    forall i: nat | Untaken(a, c, d, i)
      ensures SameAt(a.work.pairs, c.work.pairs, Key(a.clients, d, i))
    {
      assert Key(b.clients, d, i) == Key(a.clients, d, i);
      assert Untaken(a, b, d, i) && Untaken(b, c, d, i);
    }
  }

  lemma SameQueuesPass(e: Engine, e': Engine, d: Direction)
    requires Duplex(e.clients, d) && SameQueues(e, e')
    ensures Passes(e, e', d)
  {
  }

  // ---------------------------------------------------------------------------
  // Every event

  lemma JoinPasses(
    e: Engine, d: Direction, client: nat, role: PairRole, q: PairRequest, handle: nat, offset: nat, peer: nat)
    requires Inv(e) && Duplex(e.clients, d)
    requires client in e.clients && e.clients[client].attached
    requires peer < e.clients[client].size && peer != e.clients[client].rank
    requires q.key == TransferKey(e.clients[client], q.key.table, role, peer)
    ensures Passes(e, JoinTransfer(e, client, role, q, handle, offset).0, d)
  {
    var e' := JoinTransfer(e, client, role, q, handle, offset).0;
    KeyInDirection(e.clients, d, client, role, q.key.table, peer);
    MeetTable(CoreOf(e), q.key, role, q.meta, q.payload, handle, offset);
    var entry := NewEntry(role, q.meta, q.payload, handle, offset, e.mem.next);
    TableMoves(e.work.pairs, e'.work.pairs, q.key, entry);
    AdvancePasses(e, e', d, client, PairCounter(q.key.table, role));
  }

  /** A client takes a number. If it is the sender or the receiver of the direction, that
      number is now taken. */
  lemma AdvancePasses(e: Engine, e': Engine, d: Direction, client: nat, counter: Counter)
    requires Duplex(e.clients, d) && client in e.clients && e'.clients == Advance(e, client, counter).clients
    requires var own := (client == d.sender && counter == PairCounter(d.table, SendRole)) ||
                        (client == d.receiver && counter == PairCounter(d.table, RecvRole));
             forall i: nat :: (own && i == Seq(e.clients[client], counter)) ||
                              SameAt(e.work.pairs, e'.work.pairs, Key(e.clients, d, i))
    ensures Passes(e, e', d)
  {
    CountersAdvance(e.clients, client, counter, d);
  }

  lemma TableMoves(
    pairs: map<PairKey, PendingPair>, pairs': map<PairKey, PendingPair>, k: PairKey, entry: PendingPair)
    requires pairs' == if k in pairs then pairs - {k} else pairs[k := entry]
    ensures forall j :: j != k ==> SameAt(pairs, pairs', j)
  {
  }

  lemma TransferPasses(
    e: Engine, d: Direction, client: nat, table: PairTable, role: PairRole, buffer: Buffer, handle: nat, offset: nat,
    count: nat, dtype: DataType, peer: nat)
    requires Inv(e) && Duplex(e.clients, d) && client in e.clients
    ensures Passes(e, SubmitTransfer(e, client, table, role, buffer, handle, offset, count, dtype, peer).0, d)
  {
    var e' := SubmitTransfer(e, client, table, role, buffer, handle, offset, count, dtype, peer).0;
    match DecideTransfer(e.clients[client], client, table, role, buffer, offset, count, dtype, peer)
    case Reject(_) => SameQueuesPass(e, e', d);
    case Complete(_) => SameQueuesPass(e, e', d);
    case Join(q) =>
      assert e' == JoinTransfer(e, client, role, q, handle, offset).0;
      JoinPasses(e, d, client, role, q, handle, offset, peer);
  }

  lemma WrapPasses(e: Engine, d: Direction, r: (Engine, Reply))
    requires Passes(e, r.0, d)
    ensures Passes(e, Wrap(r).0, d)
  {
    WrapQueues(r);
    SameQueuesPass(r.0, Wrap(r).0, d);
    PassesThen(e, r.0, Wrap(r).0, d);
  }

  lemma ReadPasses(e: Engine, d: Direction, client: nat, id: nat)
    requires Inv(e) && Duplex(e.clients, d) && Legal(e, ERead(client, id))
    ensures Passes(e, Read(e, client, id).0, d)
  {
    var p := e.plans[id];
    if p.client == client && p.path == SimDirect && p.role == SourceSend {
      var b := Buffer(client, e.blocks[p.block.value].payload, SimHbm, 0);
      TransferPasses(e, d, client, HcommPayload, SendRole, b, 0, 0, p.bytes, UInt8, p.peer);
      WrapPasses(e, d, SubmitTransfer(e, client, HcommPayload, SendRole, b, 0, 0, p.bytes, UInt8, p.peer));
    } else if p.client == client && p.path == SimDirect && p.role == TargetRecv {
      TargetAlive(e, id);
      var b := p.dst.value;
      var buffer := e.mem.buffers[b];
      TransferPasses(e, d, client, HcommPayload, RecvRole, buffer, b, p.dstOffset, p.bytes, UInt8, p.peer);
      WrapPasses(e, d,
                 SubmitTransfer(e, client, HcommPayload, RecvRole, buffer, b, p.dstOffset, p.bytes, UInt8, p.peer));
    } else {
      StagedQueues(e, client, id);
      SameQueuesPass(e, Read(e, client, id).0, d);
    }
  }

  lemma CollectivePasses(f: Reducer, e: Engine, d: Direction, ev: Event)
    requires Inv(e) && Duplex(e.clients, d) && ev.ECollective? && Legal(e, ev)
    ensures Passes(e, Step(f, e, ev).0, d)
  {
    var c := e.clients[ev.client];
    DecidedArrival(c, e.mem, ev.coll, ev.dst, ev.dstOffset, ev.src, ev.srcOffset, ev.count, ev.dtype, ev.op);
    var e' := Step(f, e, ev).0;
    match DecideCollective(c, e.mem, ev.coll, ev.dst, ev.dstOffset, ev.src, ev.srcOffset, ev.count, ev.dtype, ev.op)
    case Reject(_) => SameQueuesPass(e, e', d);
    case Complete(_) => SameQueuesPass(e, e', d);
    case Join(q) =>
      assert e' == JoinCollective(f, e, ev.client, q, ev.dst, ev.dstOffset).0;
      ArrivalPasses(f, e, d, ev.client, q, ev.dst, ev.dstOffset);
  }

  lemma ArrivalPasses(f: Reducer, e: Engine, d: Direction, client: nat, q: CollRequest, dst: nat, offset: nat)
    requires Inv(e) && Duplex(e.clients, d) && client in e.clients
    requires ArrivalOk(e.mem, q.key, q.params, e.clients[client].rank, q.payload, dst, offset)
    ensures Passes(e, JoinCollective(f, e, client, q, dst, offset).0, d)
  {
    var e' := JoinCollective(f, e, client, q, dst, offset).0;
    assert e'.work.pairs == e.work.pairs by {
      ArriveKeeps(f, CoreOf(e), q.key, q.params, e.clients[client].rank, q.payload, dst, offset);
    }
    AdvancePasses(e, e', d, client, CollCounter(q.key.kind));
  }

  lemma StepPasses(f: Reducer, e: Engine, ev: Event, d: Direction)
    requires Inv(e) && Duplex(e.clients, d) && Legal(e, ev) && SameEpoch(ev, d)
    ensures Passes(e, Step(f, e, ev).0, d)
  {
    if ev.ECollective? {
      CollectivePasses(f, e, d, ev);
    } else if ev.ETransfer? {
      TransferPasses(e, d, ev.client, ev.table, ev.role, e.mem.buffers[ev.buffer], ev.buffer, ev.offset, ev.count,
                     ev.dtype, ev.peer);
    } else if ev.ERead? {
      ReadPasses(e, d, ev.client, ev.plan);
    } else if ev.EAttach? {
      AttachPasses(e, d, ev.client, ev.comm, ev.rank, ev.size);
    } else if ev.EOpen? {
      OpenPasses(e, d, ev.client);
    } else {
      QuietQueues(f, e, ev);
      SameQueuesPass(e, Step(f, e, ev).0, d);
    }
  }

  lemma AttachPasses(e: Engine, d: Direction, client: nat, comm: string, rank: nat, size: nat)
    requires Duplex(e.clients, d) && SameEpoch(EAttach(client, comm, rank, size), d)
    ensures Passes(e, Attach(e, client, comm, rank, size).0, d)
  {
    assert Duplex(Attach(e, client, comm, rank, size).0.clients, d);
  }

  lemma OpenPasses(e: Engine, d: Direction, client: nat)
    requires Duplex(e.clients, d) && client !in e.clients
    ensures Passes(e, Open(e, client).0, d)
  {
    assert Duplex(Open(e, client).0.clients, d);
  }

  /** Over a whole run of one attachment epoch: as long as neither side takes its number, an
      entry of the direction is left alone. */
  lemma {:induction false} RunPasses(f: Reducer, e: Engine, events: seq<Event>, e': Engine, d: Direction)
    requires Inv(e) && Run(f, e, events, e') && Duplex(e.clients, d)
    requires forall i :: 0 <= i < |events| ==> SameEpoch(events[i], d)
    ensures Inv(e') && Passes(e, e', d)
    decreases |events|
  {
    if events == [] {
      SameQueuesPass(e, e', d);
    } else {
      var e1 := Step(f, e, events[0]).0;
      assert SameEpoch(events[0], d);
      StepPasses(f, e, events[0], d);
      StepInv(f, e, events[0]);
      RunPasses(f, e1, events[1..], e', d);
      PassesThen(e, e1, e', d);
    }
  }
}
