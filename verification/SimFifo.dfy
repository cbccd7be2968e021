/** On a two-rank communicator, a pair table is a FIFO queue for each direction: what it holds
    is exactly the backlog of the leading side, in submission order. */
module SimFifo {
  import opened Common
  import opened SimState
  import opened SimLedger
  import opened SimCollective
  import opened SimCollectiveInv
  import opened SimArrive
  import opened SimPair
  import opened SimEngine
  import opened SimEngineInv
  import opened SimRuns

  /** Transfers of one table from one client to another. */
  datatype Direction = Direction(table: PairTable, comm: string, sender: nat, receiver: nat)

  /** Sender and receiver are the two ranks of the communicator, each with one client. */
  predicate Duplex(clients: map<nat, Client>, d: Direction) {
    && d.sender in clients && d.receiver in clients
    && Member(clients[d.sender], d) && Member(clients[d.receiver], d)
    && clients[d.sender].rank != clients[d.receiver].rank
    && (forall c :: c in clients && Member(clients[c], d) && clients[c].rank == clients[d.sender].rank ==>
        c == d.sender)
    && (forall c :: c in clients && Member(clients[c], d) && clients[c].rank == clients[d.receiver].rank ==>
        c == d.receiver)
  }

  predicate Member(c: Client, d: Direction) { c.attached && c.comm == d.comm && c.size == 2 && c.rank < 2 }

  function Key(clients: map<nat, Client>, d: Direction, i: nat): PairKey
    requires Duplex(clients, d)
  {
    PairKey(d.table, d.comm, 2, clients[d.sender].rank, clients[d.receiver].rank, i)
  }

  /** How many sends and receives of the direction have been accepted. */
  function Sends(clients: map<nat, Client>, d: Direction): nat
    requires Duplex(clients, d)
  {
    Seq(clients[d.sender], PairCounter(d.table, SendRole))
  }

  function Recvs(clients: map<nat, Client>, d: Direction): nat
    requires Duplex(clients, d)
  {
    Seq(clients[d.receiver], PairCounter(d.table, RecvRole))
  }

  function Low(clients: map<nat, Client>, d: Direction): nat
    requires Duplex(clients, d)
  {
    if Sends(clients, d) < Recvs(clients, d) then Sends(clients, d) else Recvs(clients, d)
  }

  function High(clients: map<nat, Client>, d: Direction): nat
    requires Duplex(clients, d)
  {
    if Sends(clients, d) < Recvs(clients, d) then Recvs(clients, d) else Sends(clients, d)
  }

  /** The entries of the direction are exactly the submissions that lead. */
  ghost predicate Backlog(clients: map<nat, Client>, pairs: map<PairKey, PendingPair>, d: Direction)
    requires Duplex(clients, d)
  {
    forall i: nat ::
      && (Key(clients, d, i) in pairs <==> Low(clients, d) <= i < High(clients, d))
      && (Key(clients, d, i) in pairs ==>
            if Recvs(clients, d) < Sends(clients, d) then pairs[Key(clients, d, i)].send.Some?
            else pairs[Key(clients, d, i)].recv.Some?)
  }

  // ---------------------------------------------------------------------------
  // One submission

  function NewEntry(role: PairRole, meta: PairMeta, payload: Bytes, dst: nat, offset: nat, io: nat): PendingPair {
    if role == SendRole then PendingPair(Some(meta), Some(SendHalf(payload, io)), None)
    else PendingPair(Some(meta), None, Some(RecvHalf(dst, offset, io)))
  }

  /** A submission adds an entry if its number is free and removes the entry if it is not. */
  lemma MeetTable(c: Core, k: PairKey, role: PairRole, meta: PairMeta, payload: Bytes, dst: nat, offset: nat)
    requires PairsValid(c.mem, c.work)
    ensures var pairs, pairs' := c.work.pairs, Meet(c, k, role, meta, payload, dst, offset).work.pairs;
            pairs' == if k in pairs then pairs - {k}
              else pairs[k := NewEntry(role, meta, payload, dst, offset, c.mem.next)]
  {
    if k in c.work.pairs {
      var e := c.work.pairs[k];
      assert PairValid(c.mem, e);
      var io := c.mem.next;
      var e' := if role == SendRole then e.(meta := Some(meta), send := Some(SendHalf(payload, io)))
                else e.(meta := Some(meta), recv := Some(RecvHalf(dst, offset, io)));
      assert ErasePair(SetPair(c.work, k, e'), k).pairs == c.work.pairs - {k};
    }
  }

  /** The direction's counters move only with its own submissions. */
  lemma CountersAdvance(clients: map<nat, Client>, client: nat, counter: Counter, d: Direction)
    requires Duplex(clients, d) && client in clients
    ensures var c := clients[client];
            var clients' := clients[client := c.(counters := c.counters[counter := Seq(c, counter) + 1])];
            && Duplex(clients', d) && (forall i: nat :: Key(clients', d, i) == Key(clients, d, i))
            && Sends(clients', d) ==
                 Sends(clients, d) + (if client == d.sender && counter == PairCounter(d.table, SendRole) then 1 else 0)
            && Recvs(clients', d) ==
                 Recvs(clients, d) + (if client == d.receiver &&
                                      counter == PairCounter(d.table, RecvRole) then 1 else 0)
  {
  }

  lemma SendExtends(
    clients: map<nat, Client>, clients': map<nat, Client>, d: Direction,
    pairs: map<PairKey, PendingPair>, pairs': map<PairKey, PendingPair>, entry: PendingPair)
    requires Duplex(clients, d) && Backlog(clients, pairs, d) && Duplex(clients', d)
    requires forall i: nat :: Key(clients', d, i) == Key(clients, d, i)
    requires Sends(clients', d) == Sends(clients, d) + 1 && Recvs(clients', d) == Recvs(clients, d)
    requires entry.send.Some?
    requires var k := Key(clients, d, Sends(clients, d));
             pairs' == if k in pairs then pairs - {k} else pairs[k := entry]
    ensures Backlog(clients', pairs', d)
  {
    var k := Key(clients, d, Sends(clients, d));
    forall i: nat
      ensures Key(clients', d, i) in pairs' <==> Low(clients', d) <= i < High(clients', d)
      ensures Key(clients', d, i) in pairs' ==>
                if Recvs(clients', d) < Sends(clients', d) then pairs'[Key(clients', d, i)].send.Some?
                else pairs'[Key(clients', d, i)].recv.Some?
    {
      assert Key(clients', d, i) == Key(clients, d, i);
      assert Key(clients, d, i) == k <==> i == Sends(clients, d);
    }
  }

  lemma RecvExtends(
    clients: map<nat, Client>, clients': map<nat, Client>, d: Direction,
    pairs: map<PairKey, PendingPair>, pairs': map<PairKey, PendingPair>, entry: PendingPair)
    requires Duplex(clients, d) && Backlog(clients, pairs, d) && Duplex(clients', d)
    requires forall i: nat :: Key(clients', d, i) == Key(clients, d, i)
    requires Recvs(clients', d) == Recvs(clients, d) + 1 && Sends(clients', d) == Sends(clients, d)
    requires entry.recv.Some?
    requires var k := Key(clients, d, Recvs(clients, d));
             pairs' == if k in pairs then pairs - {k} else pairs[k := entry]
    ensures Backlog(clients', pairs', d)
  {
    var k := Key(clients, d, Recvs(clients, d));
    forall i: nat
      ensures Key(clients', d, i) in pairs' <==> Low(clients', d) <= i < High(clients', d)
      ensures Key(clients', d, i) in pairs' ==>
                if Recvs(clients', d) < Sends(clients', d) then pairs'[Key(clients', d, i)].send.Some?
                else pairs'[Key(clients', d, i)].recv.Some?
    {
      assert Key(clients', d, i) == Key(clients, d, i);
      assert Key(clients, d, i) == k <==> i == Recvs(clients, d);
    }
  }

  /** A submission that is not in the direction leaves the direction's entries alone. */
  lemma OutsideKeeps(
    clients: map<nat, Client>, clients': map<nat, Client>, d: Direction,
    pairs: map<PairKey, PendingPair>, pairs': map<PairKey, PendingPair>, k: PairKey)
    requires Duplex(clients, d) && Backlog(clients, pairs, d) && Duplex(clients', d)
    requires forall i: nat :: Key(clients', d, i) == Key(clients, d, i)
    requires Sends(clients', d) == Sends(clients, d) && Recvs(clients', d) == Recvs(clients, d)
    requires forall i: nat :: Key(clients, d, i) != k
    requires pairs' - {k} == pairs - {k}
    ensures Backlog(clients', pairs', d)
  {
    forall i: nat
      ensures Key(clients', d, i) in pairs' <==> Key(clients, d, i) in pairs
      ensures Key(clients, d, i) in pairs ==> pairs'[Key(clients', d, i)] == pairs[Key(clients, d, i)]
    {
      var j := Key(clients, d, i);
      assert Key(clients', d, i) == j && j != k;
      assert j in pairs' <==> j in pairs' - {k};
      assert j in pairs <==> j in pairs - {k};
      if j in pairs {
        assert (pairs' - {k})[j] == (pairs - {k})[j];
      }
    }
  }

  /** The number a client's submission takes in its own direction. */
  lemma KeyInDirection(
    clients: map<nat, Client>, d: Direction, client: nat, role: PairRole, table: PairTable, peer: nat)
    requires Duplex(clients, d) && client in clients && clients[client].attached
    requires clients[client].rank < clients[client].size
    requires peer < clients[client].size && peer != clients[client].rank
    ensures var k := TransferKey(clients[client], table, role, peer);
            var mine := table == d.table && client == if role == SendRole then d.sender else d.receiver;
            && (mine ==> k == Key(clients, d, Seq(clients[client], PairCounter(table, role))))
            && (!mine ==> forall i: nat :: Key(clients, d, i) != k)
  {
  }

  lemma JoinBacklog(
    e: Engine, d: Direction, client: nat, role: PairRole, q: PairRequest, handle: nat, offset: nat, peer: nat)
    requires Inv(e) && Duplex(e.clients, d) && Backlog(e.clients, e.work.pairs, d)
    requires client in e.clients && e.clients[client].attached && peer < e.clients[client].size
    requires peer != e.clients[client].rank
    requires q.key == TransferKey(e.clients[client], q.key.table, role, peer)
    ensures var e' := JoinTransfer(e, client, role, q, handle, offset).0;
            Duplex(e'.clients, d) && Backlog(e'.clients, e'.work.pairs, d)
  {
    var e' := JoinTransfer(e, client, role, q, handle, offset).0;
    var counter := PairCounter(q.key.table, role);
    CountersAdvance(e.clients, client, counter, d);
    KeyInDirection(e.clients, d, client, role, q.key.table, peer);
    MeetTable(CoreOf(e), q.key, role, q.meta, q.payload, handle, offset);
    var entry := NewEntry(role, q.meta, q.payload, handle, offset, e.mem.next);
    BacklogMoves(e.clients, e'.clients, d, e.work.pairs, e'.work.pairs, client, role, q.key, entry);
  }

  lemma BacklogMoves(
    clients: map<nat, Client>, clients': map<nat, Client>, d: Direction,
    pairs: map<PairKey, PendingPair>, pairs': map<PairKey, PendingPair>,
    client: nat, role: PairRole, k: PairKey, entry: PendingPair)
    requires Duplex(clients, d) && Backlog(clients, pairs, d) && Duplex(clients', d)
    requires forall i: nat :: Key(clients', d, i) == Key(clients, d, i)
    requires Sends(clients', d) ==
             Sends(clients, d) + (if client == d.sender && k.table == d.table && role == SendRole then 1 else 0)
    requires Recvs(clients', d) ==
             Recvs(clients, d) + (if client == d.receiver && k.table == d.table && role == RecvRole then 1 else 0)
    requires if role == SendRole then entry.send.Some? else entry.recv.Some?
    requires pairs' == if k in pairs then pairs - {k} else pairs[k := entry]
    requires var mine := k.table == d.table && client == if role == SendRole then d.sender else d.receiver;
             && (mine ==> k == Key(clients, d, if role == SendRole then Sends(clients, d) else Recvs(clients, d)))
             && (!mine ==> forall i: nat :: Key(clients, d, i) != k)
    ensures Backlog(clients', pairs', d)
  {
    if k.table == d.table && role == SendRole && client == d.sender {
      SendExtends(clients, clients', d, pairs, pairs', entry);
    } else if k.table == d.table && role == RecvRole && client == d.receiver {
      RecvExtends(clients, clients', d, pairs, pairs', entry);
    } else {
      assert pairs' - {k} == pairs - {k};
      OutsideKeeps(clients, clients', d, pairs, pairs', k);
    }
  }

  // ---------------------------------------------------------------------------
  // Every event

  ghost predicate FifoInv(e: Engine, d: Direction) {
    Duplex(e.clients, d) && Backlog(e.clients, e.work.pairs, d)
  }

  lemma TransferBacklog(
    e: Engine, d: Direction, client: nat, table: PairTable, role: PairRole, buffer: Buffer, handle: nat, offset: nat,
    count: nat, dtype: DataType, peer: nat)
    requires Inv(e) && FifoInv(e, d) && client in e.clients
    ensures FifoInv(SubmitTransfer(e, client, table, role, buffer, handle, offset, count, dtype, peer).0, d)
  {
    var e' := SubmitTransfer(e, client, table, role, buffer, handle, offset, count, dtype, peer).0;
    match DecideTransfer(e.clients[client], client, table, role, buffer, offset, count, dtype, peer)
    case Reject(_) => assert e' == e;
    case Complete(_) => assert e'.clients == e.clients && e'.work == e.work;
    case Join(q) =>
      assert e' == JoinTransfer(e, client, role, q, handle, offset).0;
      JoinBacklog(e, d, client, role, q, handle, offset, peer);
  }

  predicate SameQueues(e: Engine, e': Engine) { e'.clients == e.clients && e'.work.pairs == e.work.pairs }

  lemma WrapQueues(r: (Engine, Reply))
    ensures SameQueues(r.0, Wrap(r).0)
  {
  }

  lemma ReadBacklog(e: Engine, d: Direction, client: nat, id: nat)
    requires Inv(e) && FifoInv(e, d) && Legal(e, ERead(client, id))
    ensures FifoInv(Read(e, client, id).0, d)
  {
    var p := e.plans[id];
    if p.client == client && p.path == SimDirect && p.role == SourceSend {
      var b := Buffer(client, e.blocks[p.block.value].payload, SimHbm, 0);
      TransferBacklog(e, d, client, HcommPayload, SendRole, b, 0, 0, p.bytes, UInt8, p.peer);
      WrapQueues(SubmitTransfer(e, client, HcommPayload, SendRole, b, 0, 0, p.bytes, UInt8, p.peer));
    } else if p.client == client && p.path == SimDirect && p.role == TargetRecv {
      TargetAlive(e, id);
      var b := p.dst.value;
      TransferBacklog(e, d, client, HcommPayload, RecvRole, e.mem.buffers[b], b, p.dstOffset, p.bytes, UInt8, p.peer);
      WrapQueues(SubmitTransfer(e, client, HcommPayload, RecvRole, e.mem.buffers[b], b, p.dstOffset, p.bytes, UInt8,
                                p.peer));
    } else {
      StagedQueues(e, client, id);
    }
  }

  lemma StagedQueues(e: Engine, client: nat, id: nat)
    requires Legal(e, ERead(client, id))
    requires e.plans[id].client != client || e.plans[id].path != SimDirect ||
             (e.plans[id].role != SourceSend && e.plans[id].role != TargetRecv)
    ensures SameQueues(e, Read(e, client, id).0)
  {
  }

  lemma CollectiveBacklog(
    f: Reducer, e: Engine, d: Direction, client: nat, kind: CollKind, dst: nat, dstOffset: nat, src: nat,
    srcOffset: nat,
    count: nat, dtype: DataType, op: ReduceOp)
    requires Inv(e) && FifoInv(e, d) && client in e.clients && dst in e.mem.buffers && src in e.mem.buffers
    ensures FifoInv(SubmitCollective(f, e, client, kind, dst, dstOffset, src, srcOffset, count, dtype, op).0, d)
  {
    DecidedArrival(e.clients[client], e.mem, kind, dst, dstOffset, src, srcOffset, count, dtype, op);
    var e' := SubmitCollective(f, e, client, kind, dst, dstOffset, src, srcOffset, count, dtype, op).0;
    match DecideCollective(e.clients[client], e.mem, kind, dst, dstOffset, src, srcOffset, count, dtype, op)
    case Reject(_) => assert e' == e;
    case Complete(_) => assert SameQueues(e, e');
    case Join(q) =>
      assert e' == JoinCollective(f, e, client, q, dst, dstOffset).0;
      JoinedBacklog(f, e, d, client, q, dst, dstOffset);
  }

  lemma JoinedBacklog(f: Reducer, e: Engine, d: Direction, client: nat, q: CollRequest, dst: nat, offset: nat)
    requires Inv(e) && FifoInv(e, d) && client in e.clients
    requires ArrivalOk(e.mem, q.key, q.params, e.clients[client].rank, q.payload, dst, offset)
    ensures FifoInv(JoinCollective(f, e, client, q, dst, offset).0, d)
  {
    var e' := JoinCollective(f, e, client, q, dst, offset).0;
    ArriveKeeps(f, CoreOf(e), q.key, q.params, e.clients[client].rank, q.payload, dst, offset);
    assert e'.work.pairs == e.work.pairs;
    CountersAdvance(e.clients, client, CollCounter(q.key.kind), d);
    BacklogSame(e.clients, e'.clients, d, e.work.pairs);
  }

  lemma BacklogSame(
    clients: map<nat, Client>, clients': map<nat, Client>, d: Direction, pairs: map<PairKey, PendingPair>)
    requires Duplex(clients, d) && Duplex(clients', d) && Backlog(clients, pairs, d)
    requires forall i: nat :: Key(clients', d, i) == Key(clients, d, i)
    requires Sends(clients', d) == Sends(clients, d) && Recvs(clients', d) == Recvs(clients, d)
    ensures Backlog(clients', pairs, d)
  {
    forall i: nat
      ensures Key(clients', d, i) == Key(clients, d, i)
    {
    }
  }

  /** One attachment epoch: nobody attaches to the communicator again. */
  predicate SameEpoch(ev: Event, d: Direction) {
    ev.EAttach? ==> ev.client != d.sender && ev.client != d.receiver && !(ev.comm == d.comm && ev.size == 2)
  }

  lemma AttachBacklog(e: Engine, d: Direction, client: nat, comm: string, rank: nat, size: nat)
    requires FifoInv(e, d) && SameEpoch(EAttach(client, comm, rank, size), d)
    ensures FifoInv(Attach(e, client, comm, rank, size).0, d)
  {
    var e' := Attach(e, client, comm, rank, size).0;
    assert Duplex(e'.clients, d);
    BacklogSame(e.clients, e'.clients, d, e.work.pairs);
  }

  lemma OpenBacklog(e: Engine, d: Direction, client: nat)
    requires FifoInv(e, d) && client !in e.clients
    ensures FifoInv(Open(e, client).0, d)
  {
    BacklogSame(e.clients, Open(e, client).0.clients, d, e.work.pairs);
  }

  lemma QuietQueues(f: Reducer, e: Engine, ev: Event)
    requires Legal(e, ev) && !ev.ECollective? && !ev.ETransfer? && !ev.ERead? && !ev.EAttach? && !ev.EOpen?
    ensures SameQueues(e, Step(f, e, ev).0)
  {
    QuietTables(f, e, ev);
  }

  lemma StepBacklog(f: Reducer, e: Engine, ev: Event, d: Direction)
    requires Inv(e) && FifoInv(e, d) && Legal(e, ev) && SameEpoch(ev, d)
    ensures FifoInv(Step(f, e, ev).0, d)
  {
    if ev.ECollective? {
      CollectiveBacklog(f, e, d, ev.client, ev.coll, ev.dst, ev.dstOffset, ev.src, ev.srcOffset, ev.count, ev.dtype,
                        ev.op);
    } else if ev.ETransfer? {
      TransferBacklog(e, d, ev.client, ev.table, ev.role, e.mem.buffers[ev.buffer], ev.buffer, ev.offset, ev.count,
                      ev.dtype, ev.peer);
    } else if ev.ERead? {
      ReadBacklog(e, d, ev.client, ev.plan);
    } else if ev.EAttach? {
      AttachBacklog(e, d, ev.client, ev.comm, ev.rank, ev.size);
    } else if ev.EOpen? {
      OpenBacklog(e, d, ev.client);
    } else {
      QuietQueues(f, e, ev);
    }
  }

  /** A direction starts with an empty backlog once both ranks have attached and nothing of
      the direction's own is pending. */
  lemma FreshBacklog(e: Engine, d: Direction)
    requires Duplex(e.clients, d) && Sends(e.clients, d) == 0 && Recvs(e.clients, d) == 0
    requires forall k :: k in e.work.pairs ==>
               !(k.table == d.table && k.comm == d.comm && k.size == 2 && k.src == e.clients[d.sender].rank)
    ensures FifoInv(e, d)
  {
    forall i: nat
      ensures Key(e.clients, d, i) !in e.work.pairs
    {
      assert Key(e.clients, d, i).src == e.clients[d.sender].rank;
    }
  }

  /** The backlog theorem: whatever else happens, the table for a direction holds exactly
      the numbers between the two counters, all of the side that leads. */
  lemma {:induction false} BacklogForever(f: Reducer, e: Engine, events: seq<Event>, e': Engine, d: Direction)
    requires Inv(e) && Run(f, e, events, e') && FifoInv(e, d)
    requires forall i :: 0 <= i < |events| ==> SameEpoch(events[i], d)
    ensures Inv(e') && FifoInv(e', d)
    decreases |events|
  {
    if events != [] {
      assert SameEpoch(events[0], d);
      StepBacklog(f, e, events[0], d);
      StepInv(f, e, events[0]);
      BacklogForever(f, Step(f, e, events[0]).0, events[1..], e', d);
    }
  }

  // ---------------------------------------------------------------------------
  // Refinement of a queue

  /** The waiting entries of a direction, oldest first. */
  function Queue(e: Engine, d: Direction): (q: seq<PendingPair>)
    requires Duplex(e.clients, d) && forall i :: Low(e.clients, d) <= i < High(e.clients, d) ==>
             Key(e.clients, d, i) in e.work.pairs
    ensures |q| == High(e.clients, d) - Low(e.clients, d)
  {
    var low := Low(e.clients, d);
    seq(High(e.clients, d) - low,
        j requires 0 <= j < High(e.clients, d) - low => e.work.pairs[Key(e.clients, d, low + j)])
  }

  /** What a queue does with an arrival: it waits behind its own kind, and takes the oldest
      entry of the other kind. */
  function Enqueue(queue: seq<PendingPair>, entry: PendingPair): seq<PendingPair> {
    if queue != [] && queue[0].send.Some? != entry.send.Some? then queue[1..] else queue + [entry]
  }

  lemma BacklogHasQueue(e: Engine, d: Direction)
    requires FifoInv(e, d)
    ensures forall i :: Low(e.clients, d) <= i < High(e.clients, d) ==> Key(e.clients, d, i) in e.work.pairs
  {
  }

  /** Every accepted submission in the direction acts on the queue as `Enqueue`. */
  lemma SubmissionRefinesQueue(e: Engine, d: Direction, role: PairRole, q: PairRequest, handle: nat, offset: nat)
    requires Inv(e) && FifoInv(e, d)
    requires var client := if role == SendRole then d.sender else d.receiver;
             var peer := if role == SendRole then e.clients[d.receiver].rank else e.clients[d.sender].rank;
             q.key == TransferKey(e.clients[client], d.table, role, peer)
    ensures var client := if role == SendRole then d.sender else d.receiver;
            var e' := JoinTransfer(e, client, role, q, handle, offset).0;
            && FifoInv(e', d)
            && (forall i :: Low(e.clients, d) <= i < High(e.clients, d) ==> Key(e.clients, d, i) in e.work.pairs)
            && (forall i :: Low(e'.clients, d) <= i < High(e'.clients, d) ==> Key(e'.clients, d, i) in e'.work.pairs)
            && Queue(e', d) == Enqueue(Queue(e, d), NewEntry(role, q.meta, q.payload, handle, offset, e.mem.next))
  {
    var client := if role == SendRole then d.sender else d.receiver;
    var peer := if role == SendRole then e.clients[d.receiver].rank else e.clients[d.sender].rank;
    var e' := JoinTransfer(e, client, role, q, handle, offset).0;
    JoinBacklog(e, d, client, role, q, handle, offset, peer);
    CountersAdvance(e.clients, client, PairCounter(d.table, role), d);
    KeyInDirection(e.clients, d, client, role, d.table, peer);
    MeetTable(CoreOf(e), q.key, role, q.meta, q.payload, handle, offset);
    BacklogHasQueue(e, d);
    BacklogHasQueue(e', d);
    var entry := NewEntry(role, q.meta, q.payload, handle, offset, e.mem.next);
    QueueMoves(e, e', d, role, entry);
  }

  lemma QueueMoves(e: Engine, e': Engine, d: Direction, role: PairRole, entry: PendingPair)
    requires FifoInv(e, d) && FifoInv(e', d) && PairsValid(e.mem, e.work)
    requires forall i: nat :: Key(e'.clients, d, i) == Key(e.clients, d, i)
    requires Sends(e'.clients, d) == Sends(e.clients, d) + (if role == SendRole then 1 else 0)
    requires Recvs(e'.clients, d) == Recvs(e.clients, d) + (if role == RecvRole then 1 else 0)
    requires entry.send.Some? == (role == SendRole)
    requires var k := Key(e.clients, d, if role == SendRole then Sends(e.clients, d) else Recvs(e.clients, d));
             e'.work.pairs == if k in e.work.pairs then e.work.pairs - {k} else e.work.pairs[k := entry]
    requires forall i :: Low(e.clients, d) <= i < High(e.clients, d) ==> Key(e.clients, d, i) in e.work.pairs
    requires forall i :: Low(e'.clients, d) <= i < High(e'.clients, d) ==> Key(e'.clients, d, i) in e'.work.pairs
    ensures Queue(e', d) == Enqueue(Queue(e, d), entry)
  {
    var s, r := Sends(e.clients, d), Recvs(e.clients, d);
    EnqueueDecides(e, d, role, entry);
    if (role == SendRole && s < r) || (role == RecvRole && r < s) {
      assert Key(e.clients, d, Low(e.clients, d)) in e.work.pairs;
      QueueShrinks(e, e', d);
    } else {
      assert Key(e.clients, d, High(e.clients, d)) !in e.work.pairs;
      QueueGrows(e, e', d, entry);
    }
  }

  /** The oldest entry, and its kind. */
  lemma QueueFront(e: Engine, d: Direction)
    requires PairsValid(e.mem, e.work) && FifoInv(e, d) && Listed(e, d) && Low(e.clients, d) < High(e.clients, d)
    ensures var k := Key(e.clients, d, Low(e.clients, d));
            && k in e.work.pairs && Queue(e, d)[0] == e.work.pairs[k]
            && (Queue(e, d)[0].send.Some? <==> Recvs(e.clients, d) < Sends(e.clients, d))
  {
    assert PairValid(e.mem, e.work.pairs[Key(e.clients, d, Low(e.clients, d))]);
  }

  lemma EnqueueDecides(e: Engine, d: Direction, role: PairRole, entry: PendingPair)
    requires PairsValid(e.mem, e.work) && FifoInv(e, d) && Listed(e, d) && entry.send.Some? == (role == SendRole)
    ensures var s, r, queue := Sends(e.clients, d), Recvs(e.clients, d), Queue(e, d);
            if (role == SendRole && s < r) || (role == RecvRole && r < s)
              then queue != [] && Enqueue(queue, entry) == queue[1..]
            else Enqueue(queue, entry) == queue + [entry]
  {
    if Low(e.clients, d) < High(e.clients, d) {
      QueueFront(e, d);
    }
  }

  /** An arrival meets the front of the queue if that is of the other kind, and nobody if not. */
  lemma ArrivalMeetsFront(e: Engine, d: Direction, role: PairRole)
    requires PairsValid(e.mem, e.work) && FifoInv(e, d) && Listed(e, d)
    ensures var i := if role == SendRole then Sends(e.clients, d) else Recvs(e.clients, d);
            var queue := Queue(e, d);
            if queue != [] && queue[0].send.Some? != (role == SendRole)
            then Key(e.clients, d, i) in e.work.pairs && e.work.pairs[Key(e.clients, d, i)] == queue[0]
            else Key(e.clients, d, i) !in e.work.pairs
  {
    if Low(e.clients, d) < High(e.clients, d) {
      QueueFront(e, d);
    }
  }

  ghost predicate Listed(e: Engine, d: Direction) {
    Duplex(e.clients, d) && forall i :: Low(e.clients, d) <= i < High(e.clients, d) ==>
      Key(e.clients, d, i) in e.work.pairs
  }

  lemma QueueGrows(e: Engine, e': Engine, d: Direction, entry: PendingPair)
    requires Listed(e, d) && Listed(e', d) && forall i: nat :: Key(e'.clients, d, i) == Key(e.clients, d, i)
    requires Low(e'.clients, d) == Low(e.clients, d) && High(e'.clients, d) == High(e.clients, d) + 1
    requires e'.work.pairs == e.work.pairs[Key(e.clients, d, High(e.clients, d)) := entry]
    ensures Queue(e', d) == Queue(e, d) + [entry]
  {
    var low := Low(e.clients, d);
    forall j | 0 <= j < |Queue(e', d)|
      ensures Queue(e', d)[j] == (Queue(e, d) + [entry])[j]
    {
      assert Key(e'.clients, d, low + j) == Key(e.clients, d, low + j);
    }
  }

  lemma QueueShrinks(e: Engine, e': Engine, d: Direction)
    requires Listed(e, d) && Listed(e', d) && forall i: nat :: Key(e'.clients, d, i) == Key(e.clients, d, i)
    requires Low(e'.clients, d) == Low(e.clients, d) + 1 <= High(e'.clients, d) == High(e.clients, d)
    requires e'.work.pairs == e.work.pairs - {Key(e.clients, d, Low(e.clients, d))}
    ensures Queue(e', d) == Queue(e, d)[1..]
  {
    var low := Low(e.clients, d);
    forall j | 0 <= j < |Queue(e', d)|
      ensures Queue(e', d)[j] == Queue(e, d)[1..][j]
    {
      assert Key(e'.clients, d, low + 1 + j) == Key(e.clients, d, low + 1 + j);
    }
  }

  // ---------------------------------------------------------------------------
  // What a meeting does

  /** The bytes of one buffer range are replaced; no other byte changes. */
  predicate Delivered(m: Mem, m': Mem, dst: nat, offset: nat, data: Bytes) {
    && m'.buffers.Keys == m.buffers.Keys && ValidRange(m, dst, offset, |data|)
    && (forall b :: b in m.buffers && b != dst ==> m'.buffers[b].bytes == m.buffers[b].bytes)
    && m'.buffers[dst].bytes == Overwrite(m.buffers[dst].bytes, offset, data)
  }

  predicate FinishedWith(m: Mem, io: nat, status: Status, bytes: nat, checksum: bv32) {
    io in m.ios && m.ios[io] == Io(true, status, bytes, checksum, 0)
  }

  lemma FinishPairDelivers(c: Core, k: PairKey)
    requires Balanced(c.mem, c.work) && k in c.work.pairs && HalvesValid(c.mem, c.work.pairs[k])
    requires c.work.pairs[k].send.Some? && c.work.pairs[k].recv.Some?
    ensures var send, recv := c.work.pairs[k].send.value, c.work.pairs[k].recv.value;
            var m' := FinishPair(c, k).mem;
            && Delivered(c.mem, m', recv.dst, recv.offset, send.payload)
            && FinishedWith(m', send.io, Ok, |send.payload|, Checksum32(send.payload))
            && FinishedWith(m', recv.io, Ok, |send.payload|, Checksum32(send.payload))
  {
    var send, recv := c.work.pairs[k].send.value, c.work.pairs[k].recv.value;
    HeldReferences(c.mem, c.work, SendAt(k), Hold(None, Some(send.io)));
    HeldReferences(c.mem, c.work, RecvAt(k), Hold(Some(recv.dst), Some(recv.io)));
    assert HoldsIo(c.work, SendAt(k), send.io) && HoldsIo(c.work, RecvAt(k), recv.io);
    assert send.io != recv.io;
    var stored := Store(c.mem, recv.dst, recv.offset, send.payload);
    var n, sum := |send.payload|, Checksum32(send.payload);
    StoreKeeps(c.mem, recv.dst, recv.offset, send.payload);
    Settled(stored, recv.dst, recv.io, Ok, n, sum);
    var m2 := FinishIo(ReleaseBuffer(stored, recv.dst), recv.io, Ok, n, sum);
    IoSettled(m2, send.io, Ok, n, sum);
    assert FinishPair(c, k).mem == FinishIo(m2, send.io, Ok, n, sum);
  }

  /** The second half of a pair with matching parameters moves the sender's snapshot into
      the receiver's range and completes both IOs. */
  lemma MatchDelivers(c: Core, k: PairKey, role: PairRole, meta: PairMeta, payload: Bytes, dst: nat, offset: nat)
    requires Balanced(c.mem, c.work) && PairsValid(c.mem, c.work) && MeetOk(c.mem, role, meta, payload, dst, offset)
    requires k in c.work.pairs && c.work.pairs[k].meta == Some(meta)
    requires c.work.pairs[k].send.Some? <==> role == RecvRole
    ensures var front := c.work.pairs[k];
            var m' := Meet(c, k, role, meta, payload, dst, offset).mem;
            var data := if role == SendRole then payload else front.send.value.payload;
            var (b, at) := if role == SendRole then (front.recv.value.dst, front.recv.value.offset) else (dst, offset);
            var waiting := if role == SendRole then front.recv.value.io else front.send.value.io;
            && Delivered(c.mem, m', b, at, data)
            && FinishedWith(m', waiting, Ok, |data|, Checksum32(data))
            && FinishedWith(m', c.mem.next, Ok, |data|, Checksum32(data))
  {
    var e := c.work.pairs[k];
    assert PairValid(c.mem, e);
    match role
    case SendRole =>
      SendJoins(c, k, meta, payload);
      FinishPairDelivers(Core(NewIo(c.mem, PendingIo()),
                              SetPair(c.work, k, e.(meta := Some(meta), send := Some(SendHalf(payload, c.mem.next))))),
                                k);
    case RecvRole =>
      RecvJoins(c, k, meta, dst, offset);
      BookedKeeps(c.mem, dst);
      FinishPairDelivers(Core(Booked(c.mem, dst),
                              SetPair(c.work, k,
                                      e.(meta := Some(meta), recv := Some(RecvHalf(dst, offset, c.mem.next))))), k);
  }

  /** A second half with other parameters fails both IOs and moves nothing. */
  lemma MismatchFails(c: Core, k: PairKey, role: PairRole, meta: PairMeta, payload: Bytes, dst: nat, offset: nat)
    requires Balanced(c.mem, c.work) && PairsValid(c.mem, c.work)
    requires k in c.work.pairs && c.work.pairs[k].meta != Some(meta)
    ensures var front := c.work.pairs[k];
            var m' := Meet(c, k, role, meta, payload, dst, offset).mem;
            var waiting := if front.send.Some? then front.send.value.io else front.recv.value.io;
            && SameBytes(c.mem, m')
            && FinishedWith(m', waiting, InvalidArgument, 0, 0)
            && FinishedWith(m', c.mem.next, InvalidArgument, 0, 0)
  {
    var front := c.work.pairs[k];
    assert PairValid(c.mem, front);
    var waiting := if front.send.Some? then front.send.value.io else front.recv.value.io;
    var failed := FailPair(c, k, InvalidArgument).mem;
    HalfFails(c, k);
    assert waiting < c.mem.next by {
      assert HoldsIo(c.work, if front.send.Some? then SendAt(k) else RecvAt(k), waiting);
    }
    assert Meet(c, k, role, meta, payload, dst, offset).mem == NewIo(failed, DoneIo(InvalidArgument));
  }

  lemma HalfFails(c: Core, k: PairKey)
    requires Balanced(c.mem, c.work) && PairsValid(c.mem, c.work) && k in c.work.pairs
    ensures PairValid(c.mem, c.work.pairs[k])
    ensures var front := c.work.pairs[k];
            var failed := FailPair(c, k, InvalidArgument).mem;
            && SameBytes(c.mem, failed) && failed.next == c.mem.next
            && FinishedWith(failed, if front.send.Some? then front.send.value.io else front.recv.value.io,
                            InvalidArgument, 0, 0)
  {
    var e := c.work.pairs[k];
    assert PairValid(c.mem, e);
    if e.send.Some? {
      HeldReferences(c.mem, c.work, SendAt(k), Hold(None, Some(e.send.value.io)));
      IoSettled(c.mem, e.send.value.io, InvalidArgument, 0, 0);
      assert FailPair(c, k, InvalidArgument).mem == FinishIo(c.mem, e.send.value.io, InvalidArgument, 0, 0);
    } else {
      HeldReferences(c.mem, c.work, RecvAt(k), Hold(Some(e.recv.value.dst), Some(e.recv.value.io)));
      Settled(c.mem, e.recv.value.dst, e.recv.value.io, InvalidArgument, 0, 0);
      assert FailPair(c, k, InvalidArgument).mem ==
             FinishIo(ReleaseBuffer(c.mem, e.recv.value.dst), e.recv.value.io, InvalidArgument, 0, 0);
    }
  }

  /** A first half leaves every byte alone and its IO pending. */
  lemma FirstHalfWaits(c: Core, k: PairKey, role: PairRole, meta: PairMeta, payload: Bytes, dst: nat, offset: nat)
    requires k !in c.work.pairs && MeetOk(c.mem, role, meta, payload, dst, offset)
    ensures var m' := Meet(c, k, role, meta, payload, dst, offset).mem;
            SameBytes(c.mem, m') && c.mem.next in m'.ios && m'.ios[c.mem.next] == PendingIo()
  {
    if role == RecvRole {
      BookedKeeps(c.mem, dst);
    }
  }

  /** A call that is rejected, or answered at once, takes no number and touches no queue. */
  lemma RejectedTakesNoNumber(
    e: Engine, client: nat, table: PairTable, role: PairRole, buffer: Buffer, handle: nat, offset: nat,
    count: nat, dtype: DataType, peer: nat)
    requires client in e.clients
    requires !DecideTransfer(e.clients[client], client, table, role, buffer, offset, count, dtype, peer).Join?
    ensures SameQueues(e, SubmitTransfer(e, client, table, role, buffer, handle, offset, count, dtype, peer).0)
  {
  }
}
