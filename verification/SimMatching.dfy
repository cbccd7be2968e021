/** Ranks with matching programs: in every interleaving, the k-th collectives of all ranks
    meet, and the last arrival delivers the rank-order result of the submitted snapshots. */
module SimMatching {
  import opened Common
  import opened SimState
  import opened SimLedger
  import opened SimCollective
  import opened SimCollectiveInv
  import opened SimArrive
  import opened SimPair
  import opened SimEngine
  import opened SimEngineInv
  import opened SimRuns
  import opened SimDelivery

  /** The collectives of one kind on one communicator; `members[r]` is the client of rank r. */
  datatype Group = Group(comm: string, kind: CollKind, members: seq<nat>)

  predicate Belongs(c: Client, g: Group) { c.attached && c.comm == g.comm && c.size == |g.members| }

  /** One client per rank. */
  predicate Attended(clients: map<nat, Client>, g: Group) {
    && |g.members| > 0
    && (forall r :: 0 <= r < |g.members| ==>
          g.members[r] in clients && Belongs(clients[g.members[r]], g) && clients[g.members[r]].rank == r)
    && (forall c :: c in clients && Belongs(clients[c], g) ==>
          clients[c].rank < |g.members| && g.members[clients[c].rank] == c)
  }

  /** What each rank has submitted, in order. */
  type Log = seq<seq<CollSlot>>

  /** The parameters every rank gives its i-th collective. */
  type Program = nat -> CollParams

  function GroupKey(g: Group, i: nat): CollKey { CollKey(g.comm, |g.members|, i, g.kind) }

  function SlotOf(log: Log, r: nat, i: nat): Option<CollSlot>
    requires r < |log|
  {
    if i < |log[r]| then Some(log[r][i]) else None
  }

  predicate SomeReached(log: Log, i: nat) { exists r :: 0 <= r < |log| && i < |log[r]| }

  predicate SomeMissing(log: Log, i: nat) { exists r :: 0 <= r < |log| && |log[r]| <= i }

  /** Entry `i` is in the table exactly while some ranks have submitted their i-th collective
      and some have not, and it holds exactly what was submitted. */
  predicate EntryMatches(colls: map<CollKey, PendingColl>, g: Group, log: Log, prog: Program, i: nat)
    requires |log| == |g.members|
  {
    var k := GroupKey(g, i);
    && (k in colls <==> SomeReached(log, i) && SomeMissing(log, i))
    && (k in colls ==>
          && colls[k].params == prog(i) && |colls[k].slots| == |log|
          && forall r :: 0 <= r < |log| ==> colls[k].slots[r] == SlotOf(log, r, i))
  }

  ghost predicate Paired(
    clients: map<nat, Client>, colls: map<CollKey, PendingColl>, g: Group, log: Log, prog: Program) {
    && Attended(clients, g) && |log| == |g.members|
    && (forall r :: 0 <= r < |log| ==> |log[r]| == Seq(clients[g.members[r]], CollCounter(g.kind)))
    && (forall i: nat :: EntryMatches(colls, g, log, prog, i))
  }

  // ---------------------------------------------------------------------------
  // One submission of a member

  /** What an accepted arrival does, step by step. */
  lemma ArriveJoins(f: Reducer, c: Core, k: CollKey, p: CollParams, rank: nat, slot: CollSlot)
    requires slot.io == c.mem.next
    requires var e := EntryOr(c.work, k, p); e.params == p && rank < |e.slots| && e.slots[rank] == None
    ensures var joined := Core(Booked(c.mem, slot.dst), Joined(c.work, k, p, rank, slot));
            Arrive(f, c, k, p, rank, slot.payload, slot.dst, slot.offset) ==
            if joined.work.colls[k].arrivals == k.size then FinishColl(f, joined, k) else joined
  {
  }

  lemma FullEntry(m: Mem, k: CollKey, e: PendingColl)
    requires EntryValid(m, k, e)
    ensures e.arrivals == k.size <==> Full(e.slots)
  {
    FilledBound(e.slots);
  }

  lemma JoinedTable(f: Reducer, colls: map<CollKey, PendingColl>, joined: Core, k: CollKey, e: PendingColl)
    requires Settling(joined, k) && joined.work.colls == colls[k := e] && EntryValid(joined.mem, k, e) && k.size > 0
    ensures var c' := if e.arrivals == k.size then FinishColl(f, joined, k) else joined;
            c'.work.colls == if Full(e.slots) then colls - {k} else colls[k := e]
  {
    FullEntry(joined.mem, k, e);
    EraseAdded(colls, k, e);
    if Full(e.slots) {
      FinishCollResolves(f, joined, k);
    }
  }

  lemma EraseAdded(colls: map<CollKey, PendingColl>, k: CollKey, e: PendingColl)
    ensures colls[k := e] - {k} == colls - {k}
  {
  }

  function TableAfter(w: Work, k: CollKey, p: CollParams, rank: nat, slot: CollSlot): map<CollKey, PendingColl>
    requires rank < |EntryOr(w, k, p).slots|
  {
    var e := EntryOr(w, k, p);
    var slots' := e.slots[rank := Some(slot)];
    if Full(slots') then w.colls - {k} else w.colls[k := PendingColl(p, slots', e.arrivals + 1)]
  }

  /** The table after a submission that its entry accepts. */
  lemma ArriveTable(f: Reducer, c: Core, k: CollKey, p: CollParams, rank: nat, slot: CollSlot)
    requires Balanced(c.mem, c.work) && CollsValid(c.mem, c.work) && slot.io == c.mem.next
    requires ArrivalOk(c.mem, k, p, rank, slot.payload, slot.dst, slot.offset)
    requires var e := EntryOr(c.work, k, p); e.params == p && rank < |e.slots| && e.slots[rank] == None
    ensures Arrive(f, c, k, p, rank, slot.payload, slot.dst, slot.offset).work.colls ==
            TableAfter(c.work, k, p, rank, slot)
  {
    var joined := Core(Booked(c.mem, slot.dst), Joined(c.work, k, p, rank, slot));
    JoinKeeps(c, k, p, rank, slot);
    ArriveJoins(f, c, k, p, rank, slot);
    JoinedTable(f, c.work.colls, joined, k, joined.work.colls[k]);
  }

  /** The entry a member's next submission finds. */
  lemma FoundEntry(w: Work, clients: map<nat, Client>, g: Group, log: Log, prog: Program, rank: nat)
    requires Paired(clients, w.colls, g, log, prog) && rank < |log|
    ensures var i := |log[rank]|;
            var e := EntryOr(w, GroupKey(g, i), prog(i));
            && e.params == prog(i) && |e.slots| == |log| && e.slots[rank] == None
            && forall r :: 0 <= r < |log| ==> e.slots[r] == SlotOf(log, r, i)
  {
    var i := |log[rank]|;
    assert EntryMatches(w.colls, g, log, prog, i);
    assert SomeMissing(log, i);
    if GroupKey(g, i) !in w.colls {
      forall r | 0 <= r < |log|
        ensures SlotOf(log, r, i) == None
      {
        assert !(i < |log[r]|);
      }
    }
  }

  function Extended(log: Log, rank: nat, slot: CollSlot): Log
    requires rank < |log|
  {
    log[rank := log[rank] + [slot]]
  }

  /** The entry that the submission goes to, afterwards. */
  lemma OwnEntry(
    colls: map<CollKey, PendingColl>, colls': map<CollKey, PendingColl>, g: Group, log: Log, prog: Program,
    rank: nat, slot: CollSlot, slots: Slots, arrivals: nat)
    requires |log| == |g.members| && rank < |log| && |slots| == |log|
    requires forall r :: 0 <= r < |log| ==> slots[r] == SlotOf(log, r, |log[rank]|)
    requires var k := GroupKey(g, |log[rank]|);
             var slots' := slots[rank := Some(slot)];
             colls' == if Full(slots') then colls - {k}
               else colls[k := PendingColl(prog(|log[rank]|), slots', arrivals)]
    ensures EntryMatches(colls', g, Extended(log, rank, slot), prog, |log[rank]|)
  {
    var i := |log[rank]|;
    var log' := Extended(log, rank, slot);
    var slots' := slots[rank := Some(slot)];
    forall r | 0 <= r < |log|
      ensures slots'[r] == SlotOf(log', r, i)
    {
    }
    assert i < |log'[rank]|;
    assert SomeReached(log', i);
    if Full(slots') {
      forall r | 0 <= r < |log'|
        ensures i < |log'[r]|
      {
        assert slots'[r].Some?;
      }
    } else {
      var r :| 0 <= r < |slots'| && !slots'[r].Some?;
      assert |log'[r]| <= i;
    }
  }

  lemma OtherEntry(
    colls: map<CollKey, PendingColl>, colls': map<CollKey, PendingColl>, g: Group, log: Log, prog: Program,
    rank: nat, slot: CollSlot, j: nat)
    requires |log| == |g.members| && rank < |log| && j != |log[rank]| && EntryMatches(colls, g, log, prog, j)
    requires colls' - {GroupKey(g, |log[rank]|)} == colls - {GroupKey(g, |log[rank]|)}
    ensures EntryMatches(colls', g, Extended(log, rank, slot), prog, j)
  {
    var log' := Extended(log, rank, slot);
    var k, own := GroupKey(g, j), GroupKey(g, |log[rank]|);
    assert k in colls' <==> k in colls' - {own};
    assert k in colls <==> k in colls - {own};
    if k in colls {
      assert (colls' - {own})[k] == (colls - {own})[k];
    }
    forall r | 0 <= r < |log|
      ensures (j < |log'[r]| <==> j < |log[r]|) && SlotOf(log', r, j) == SlotOf(log, r, j)
    {
    }
    SameReach(log, log', j);
  }

  lemma SameReach(log: Log, log': Log, j: nat)
    requires |log'| == |log| && forall r :: 0 <= r < |log| ==> (j < |log'[r]| <==> j < |log[r]|)
    ensures SomeReached(log', j) == SomeReached(log, j) && SomeMissing(log', j) == SomeMissing(log, j)
  {
    if SomeReached(log, j) {
      var r :| 0 <= r < |log| && j < |log[r]|;
      assert j < |log'[r]|;
    }
    if SomeReached(log', j) {
      var r :| 0 <= r < |log'| && j < |log'[r]|;
      assert j < |log[r]|;
    }
    if SomeMissing(log, j) {
      var r :| 0 <= r < |log| && |log[r]| <= j;
      assert |log'[r]| <= j;
    }
    if SomeMissing(log', j) {
      var r :| 0 <= r < |log'| && |log'[r]| <= j;
      assert |log[r]| <= j;
    }
  }

  /** Counters and ranks after a client took a number. */
  lemma AttendedAdvances(clients: map<nat, Client>, client: nat, counter: Counter, g: Group)
    requires Attended(clients, g) && client in clients
    ensures var c := clients[client];
            var clients' := clients[client := c.(counters := c.counters[counter := Seq(c, counter) + 1])];
            && Attended(clients', g)
            && forall r :: 0 <= r < |g.members| ==>
                 Seq(clients'[g.members[r]], CollCounter(g.kind)) ==
                 Seq(clients[g.members[r]], CollCounter(g.kind)) +
                 if g.members[r] == client && counter == CollCounter(g.kind) then 1 else 0
  {
  }

  lemma MemberPaired(
    f: Reducer, e: Engine, g: Group, log: Log, prog: Program, q: CollRequest, rank: nat, dst: nat, offset: nat)
    requires Inv(e) && Paired(e.clients, e.work.colls, g, log, prog) && rank < |log|
    requires ArrivalOk(e.mem, q.key, q.params, rank, q.payload, dst, offset)
    requires q.key == GroupKey(g, |log[rank]|) && q.params == prog(|log[rank]|)
    ensures var e' := JoinCollective(f, e, g.members[rank], q, dst, offset).0;
            Paired(e'.clients, e'.work.colls, g, Extended(log, rank, CollSlot(q.payload, dst, offset, e.mem.next)),
                   prog)
  {
    var slot := CollSlot(q.payload, dst, offset, e.mem.next);
    MemberArrives(f, CoreOf(e), e.clients, g, log, prog, q.key, q.params, rank, slot);
    var colls' := Arrive(f, CoreOf(e), q.key, q.params, rank, q.payload, dst, offset).work.colls;
    CountsExtended(e.clients, colls', g, log, prog, rank, slot);
    assert e.clients[g.members[rank]].rank == rank;
    JoinMoves(f, e, g.members[rank], q, dst, offset);
  }

  /** What a call does to the clients and to the table. */
  lemma JoinMoves(f: Reducer, e: Engine, client: nat, q: CollRequest, dst: nat, offset: nat)
    requires client in e.clients
    ensures var c := e.clients[client];
            var counter := CollCounter(q.key.kind);
            var e' := JoinCollective(f, e, client, q, dst, offset).0;
            && e'.clients == e.clients[client := c.(counters := c.counters[counter := Seq(c, counter) + 1])]
            && e'.work.colls == Arrive(f, CoreOf(e), q.key, q.params, c.rank, q.payload, dst, offset).work.colls
  {
  }

  lemma MemberArrives(
    f: Reducer, c: Core, clients: map<nat, Client>, g: Group, log: Log, prog: Program,
    k: CollKey, p: CollParams, rank: nat, slot: CollSlot)
    requires Balanced(c.mem, c.work) && CollsValid(c.mem, c.work) && slot.io == c.mem.next
    requires Paired(clients, c.work.colls, g, log, prog) && rank < |log|
    requires ArrivalOk(c.mem, k, p, rank, slot.payload, slot.dst, slot.offset)
    requires k == GroupKey(g, |log[rank]|) && p == prog(|log[rank]|)
    ensures var colls' := Arrive(f, c, k, p, rank, slot.payload, slot.dst, slot.offset).work.colls;
            forall i: nat :: EntryMatches(colls', g, Extended(log, rank, slot), prog, i)
  {
    FoundEntry(c.work, clients, g, log, prog, rank);
    ArriveTable(f, c, k, p, rank, slot);
    var colls' := Arrive(f, c, k, p, rank, slot.payload, slot.dst, slot.offset).work.colls;
    MemberEntries(c.work, colls', clients, g, log, prog, k, p, rank, slot);
  }

  lemma MemberEntries(
    w: Work, colls': map<CollKey, PendingColl>, clients: map<nat, Client>, g: Group, log: Log, prog: Program,
    k: CollKey, p: CollParams, rank: nat, slot: CollSlot)
    requires Paired(clients, w.colls, g, log, prog) && rank < |log| && rank < |EntryOr(w, k, p).slots|
    requires k == GroupKey(g, |log[rank]|) && p == prog(|log[rank]|)
    requires colls' == TableAfter(w, k, p, rank, slot)
    ensures forall i: nat :: EntryMatches(colls', g, Extended(log, rank, slot), prog, i)
  {
    FoundEntry(w, clients, g, log, prog, rank);
    var found := EntryOr(w, k, p);
    EntriesExtended(w.colls, colls', g, log, prog, rank, slot, found.slots, found.arrivals + 1);
  }

  lemma CountsExtended(
    clients: map<nat, Client>, colls': map<CollKey, PendingColl>, g: Group, log: Log, prog: Program, rank: nat,
    slot: CollSlot)
    requires Attended(clients, g) && |log| == |g.members| && rank < |log|
    requires forall r :: 0 <= r < |log| ==> |log[r]| == Seq(clients[g.members[r]], CollCounter(g.kind))
    requires forall i: nat :: EntryMatches(colls', g, Extended(log, rank, slot), prog, i)
    ensures var c := clients[g.members[rank]];
            var counter := CollCounter(g.kind);
            Paired(clients[g.members[rank] := c.(counters := c.counters[counter := Seq(c, counter) + 1])], colls', g,
                   Extended(log, rank, slot), prog)
  {
    AttendedAdvances(clients, g.members[rank], CollCounter(g.kind), g);
    MembersDiffer(clients, g);
  }

  lemma MembersDiffer(clients: map<nat, Client>, g: Group)
    requires Attended(clients, g)
    ensures forall q, r :: 0 <= q < |g.members| && 0 <= r < |g.members| && g.members[q] == g.members[r] ==> q == r
  {
  }

  lemma EntriesExtended(
    colls: map<CollKey, PendingColl>, colls': map<CollKey, PendingColl>, g: Group, log: Log, prog: Program,
    rank: nat, slot: CollSlot, slots: Slots, arrivals: nat)
    requires |log| == |g.members| && rank < |log| && |slots| == |log|
    requires forall i: nat :: EntryMatches(colls, g, log, prog, i)
    requires forall r :: 0 <= r < |log| ==> slots[r] == SlotOf(log, r, |log[rank]|)
    requires var k := GroupKey(g, |log[rank]|);
             var slots' := slots[rank := Some(slot)];
             colls' == if Full(slots') then colls - {k}
               else colls[k := PendingColl(prog(|log[rank]|), slots', arrivals)]
    ensures forall i: nat :: EntryMatches(colls', g, Extended(log, rank, slot), prog, i)
  {
    var k := GroupKey(g, |log[rank]|);
    assert colls' - {k} == colls - {k};
    forall i: nat
      ensures EntryMatches(colls', g, Extended(log, rank, slot), prog, i)
    {
      if i == |log[rank]| {
        OwnEntry(colls, colls', g, log, prog, rank, slot, slots, arrivals);
      } else {
        OtherEntry(colls, colls', g, log, prog, rank, slot, i);
      }
    }
  }

  // ---------------------------------------------------------------------------
  // Every event

  /** The member that an accepted collective of the group comes from, if any. */
  function Arriving(e: Engine, g: Group, ev: Event): Option<CollRequest>
    requires Legal(e, ev)
  {
    if ev.ECollective? && ev.coll == g.kind && Belongs(e.clients[ev.client], g) then
      match DecideCollective(e.clients[ev.client], e.mem, ev.coll, ev.dst, ev.dstOffset, ev.src, ev.srcOffset,
                             ev.count, ev.dtype, ev.op)
      case Join(q) => Some(q)
      case _ => None
    else None
  }

  function NextLog(e: Engine, g: Group, log: Log, ev: Event): Log
    requires Legal(e, ev)
  {
    match Arriving(e, g, ev)
    case None => log
    case Some(q) =>
      var rank := e.clients[ev.client].rank;
      if rank < |log| then Extended(log, rank, CollSlot(q.payload, ev.dst, ev.dstOffset, e.mem.next)) else log
  }

  /** The ranks keep to one program, and nobody attaches to the communicator again. */
  predicate Conforms(e: Engine, g: Group, prog: Program, ev: Event)
    requires Legal(e, ev)
  {
    && (Arriving(e, g, ev).Some? ==>
          Arriving(e, g, ev).value.params == prog(Seq(e.clients[ev.client], CollCounter(g.kind))))
    && (ev.EAttach? ==> ev.client !in g.members && !(ev.comm == g.comm && ev.size == |g.members|))
  }

  lemma CollectivePaired(f: Reducer, e: Engine, g: Group, log: Log, prog: Program, ev: Event)
    requires Inv(e) && Paired(e.clients, e.work.colls, g, log, prog) && ev.ECollective? && Legal(e, ev)
    requires Conforms(e, g, prog, ev)
    ensures var e' := Step(f, e, ev).0; Paired(e'.clients, e'.work.colls, g, NextLog(e, g, log, ev), prog)
  {
    var c := e.clients[ev.client];
    var e' := Step(f, e, ev).0;
    DecidedArrival(c, e.mem, ev.coll, ev.dst, ev.dstOffset, ev.src, ev.srcOffset, ev.count, ev.dtype, ev.op);
    match DecideCollective(c, e.mem, ev.coll, ev.dst, ev.dstOffset, ev.src, ev.srcOffset, ev.count, ev.dtype, ev.op)
    case Reject(_) => assert e' == e;
    case Complete(_) => assert e'.clients == e.clients && e'.work == e.work;
    case Join(q) =>
      assert e' == JoinCollective(f, e, ev.client, q, ev.dst, ev.dstOffset).0;
      JoinPaired(f, e, g, log, prog, ev.client, q, ev.dst, ev.dstOffset);
  }

  /** An accepted collective, of a member or not. */
  lemma JoinPaired(
    f: Reducer, e: Engine, g: Group, log: Log, prog: Program, client: nat, q: CollRequest, dst: nat, offset: nat)
    requires Inv(e) && Paired(e.clients, e.work.colls, g, log, prog) && client in e.clients
    requires ArrivalOk(e.mem, q.key, q.params, e.clients[client].rank, q.payload, dst, offset)
    requires var c := e.clients[client];
             c.attached && q.key == CollKey(c.comm, c.size, Seq(c, CollCounter(q.key.kind)), q.key.kind)
    requires var c := e.clients[client];
             q.key.kind == g.kind && Belongs(c, g) ==> q.params == prog(Seq(c, CollCounter(g.kind)))
    ensures var e', c := JoinCollective(f, e, client, q, dst, offset).0, e.clients[client];
            Paired(e'.clients, e'.work.colls, g,
                   if q.key.kind == g.kind && Belongs(c, g) && c.rank < |log|
                   then Extended(log, c.rank, CollSlot(q.payload, dst, offset, e.mem.next)) else log, prog)
  {
    var c := e.clients[client];
    if q.key.kind == g.kind && Belongs(c, g) {
      assert g.members[c.rank] == client;
      MemberPaired(f, e, g, log, prog, q, c.rank, dst, offset);
    } else {
      StrangerPaired(f, e, g, log, prog, client, q, dst, offset);
    }
  }

  /** Submissions of other kinds and other communicators do not touch the group. */
  lemma StrangerPaired(
    f: Reducer, e: Engine, g: Group, log: Log, prog: Program, client: nat, q: CollRequest, dst: nat, offset: nat)
    requires Balanced(e.mem, e.work) && CollsValid(e.mem, e.work) && client in e.clients
    requires Paired(e.clients, e.work.colls, g, log, prog)
    requires ArrivalOk(e.mem, q.key, q.params, e.clients[client].rank, q.payload, dst, offset)
    requires q.key.kind != g.kind || !Belongs(e.clients[client], g)
    requires q.key.comm == e.clients[client].comm && q.key.size == e.clients[client].size && e.clients[client].attached
    ensures var e' := JoinCollective(f, e, client, q, dst, offset).0; Paired(e'.clients, e'.work.colls, g, log, prog)
  {
    var colls' := Arrive(f, CoreOf(e), q.key, q.params, e.clients[client].rank, q.payload, dst, offset).work.colls;
    StrangerArrives(f, CoreOf(e), g, log, prog, q.key, q.params, e.clients[client].rank, q.payload, dst, offset);
    CountsKept(e.clients, colls', g, log, prog, client, CollCounter(q.key.kind));
    JoinMoves(f, e, client, q, dst, offset);
  }

  lemma StrangerArrives(
    f: Reducer, c: Core, g: Group, log: Log, prog: Program, k: CollKey, p: CollParams, rank: nat, payload: Bytes,
    dst: nat, offset: nat)
    requires Balanced(c.mem, c.work) && CollsValid(c.mem, c.work) && ArrivalOk(c.mem, k, p, rank, payload, dst, offset)
    requires |log| == |g.members| && (forall i: nat :: EntryMatches(c.work.colls, g, log, prog, i))
    requires k.kind != g.kind || k.comm != g.comm || k.size != |g.members|
    ensures var colls' := Arrive(f, c, k, p, rank, payload, dst, offset).work.colls;
            forall i: nat :: EntryMatches(colls', g, log, prog, i)
  {
    var c' := Arrive(f, c, k, p, rank, payload, dst, offset);
    assert OtherColls(c.work, c'.work, k) by {
      ArriveKeeps(f, c, k, p, rank, payload, dst, offset);
    }
    OutsideGroup(c.work.colls, c'.work.colls, g, log, prog, k);
  }

  lemma CountsKept(
    clients: map<nat, Client>, colls': map<CollKey, PendingColl>, g: Group, log: Log, prog: Program, client: nat,
    counter: Counter)
    requires Attended(clients, g) && |log| == |g.members| && client in clients
    requires counter != CollCounter(g.kind) || !Belongs(clients[client], g)
    requires forall r :: 0 <= r < |log| ==> |log[r]| == Seq(clients[g.members[r]], CollCounter(g.kind))
    requires forall i: nat :: EntryMatches(colls', g, log, prog, i)
    ensures var c := clients[client];
            Paired(clients[client := c.(counters := c.counters[counter := Seq(c, counter) + 1])], colls', g, log, prog)
  {
    AttendedAdvances(clients, client, counter, g);
  }

  lemma OutsideGroup(
    colls: map<CollKey, PendingColl>, colls': map<CollKey, PendingColl>, g: Group, log: Log, prog: Program, k: CollKey)
    requires |log| == |g.members| && (forall i: nat :: EntryMatches(colls, g, log, prog, i))
    requires colls' - {k} == colls - {k} && forall i: nat :: GroupKey(g, i) != k
    ensures forall i: nat :: EntryMatches(colls', g, log, prog, i)
  {
    forall i: nat
      ensures EntryMatches(colls', g, log, prog, i)
    {
      var j := GroupKey(g, i);
      assert EntryMatches(colls, g, log, prog, i) && j != k;
      assert j in colls' <==> j in colls' - {k};
      assert j in colls <==> j in colls - {k};
      if j in colls {
        assert (colls' - {k})[j] == (colls - {k})[j];
      }
    }
  }

  predicate SameMembers(clients: map<nat, Client>, clients': map<nat, Client>) {
    && clients'.Keys == clients.Keys
    && forall c :: c in clients ==>
         && clients'[c].(counters := map[]) == clients[c].(counters := map[])
         && (forall kind :: Seq(clients'[c], CollCounter(kind)) == Seq(clients[c], CollCounter(kind)))
  }

  lemma TransferMembers(
    e: Engine, client: nat, table: PairTable, role: PairRole, buffer: Buffer, handle: nat, offset: nat,
    count: nat, dtype: DataType, peer: nat)
    requires Inv(e) && client in e.clients
    requires role == RecvRole ==> handle in e.mem.buffers && e.mem.buffers[handle] == buffer
    ensures var e' := SubmitTransfer(e, client, table, role, buffer, handle, offset, count, dtype, peer).0;
            SameMembers(e.clients, e'.clients) && e'.work.colls == e.work.colls
  {
    var e' := SubmitTransfer(e, client, table, role, buffer, handle, offset, count, dtype, peer).0;
    DecidedMeeting(e.clients[client], e.mem, client, table, role, buffer, handle, offset, count, dtype, peer);
    match DecideTransfer(e.clients[client], client, table, role, buffer, offset, count, dtype, peer)
    case Reject(_) => assert e' == e;
    case Complete(_) => assert e'.clients == e.clients && e'.work == e.work;
    case Join(q) =>
      assert e' == JoinTransfer(e, client, role, q, handle, offset).0;
      JoinMembers(e, client, role, q, handle, offset);
  }

  lemma JoinMembers(e: Engine, client: nat, role: PairRole, q: PairRequest, handle: nat, offset: nat)
    requires Inv(e) && client in e.clients && MeetOk(e.mem, role, q.meta, q.payload, handle, offset)
    ensures var e' := JoinTransfer(e, client, role, q, handle, offset).0;
            SameMembers(e.clients, e'.clients) && e'.work.colls == e.work.colls
  {
    var c' := Meet(CoreOf(e), q.key, role, q.meta, q.payload, handle, offset);
    assert JoinTransfer(e, client, role, q, handle, offset).0 ==
           WithCore(Advance(e, client, PairCounter(q.key.table, role)), c');
    assert c'.work.colls == e.work.colls by {
      MeetKeeps(CoreOf(e), q.key, role, q.meta, q.payload, handle, offset);
    }
  }

  lemma MembersPaired(e: Engine, e': Engine, g: Group, log: Log, prog: Program)
    requires Paired(e.clients, e.work.colls, g, log, prog) && SameMembers(e.clients, e'.clients)
    requires e'.work.colls == e.work.colls
    ensures Paired(e'.clients, e'.work.colls, g, log, prog)
  {
    forall c | c in e.clients
      ensures Belongs(e'.clients[c], g) == Belongs(e.clients[c], g) && e'.clients[c].rank == e.clients[c].rank
    {
      assert e'.clients[c].(counters := map[]) == e.clients[c].(counters := map[]);
    }
  }

  predicate SameColls(e: Engine, e': Engine) { e'.clients == e.clients && e'.work.colls == e.work.colls }

  lemma ReadMembers(e: Engine, client: nat, id: nat)
    requires Inv(e) && Legal(e, ERead(client, id))
    ensures var e' := Read(e, client, id).0; SameMembers(e.clients, e'.clients) && e'.work.colls == e.work.colls
  {
    var p := e.plans[id];
    var r := Read(e, client, id);
    if p.client == client && p.path == SimDirect && p.role == SourceSend {
      var b := Buffer(client, e.blocks[p.block.value].payload, SimHbm, 0);
      assert r == Wrap(SubmitTransfer(e, client, HcommPayload, SendRole, b, 0, 0, p.bytes, UInt8, p.peer));
      TransferMembers(e, client, HcommPayload, SendRole, b, 0, 0, p.bytes, UInt8, p.peer);
      WrapColls(SubmitTransfer(e, client, HcommPayload, SendRole, b, 0, 0, p.bytes, UInt8, p.peer));
    } else if p.client == client && p.path == SimDirect && p.role == TargetRecv {
      TargetAlive(e, id);
      var b := p.dst.value;
      assert r == Wrap(SubmitTransfer(e, client, HcommPayload, RecvRole, e.mem.buffers[b], b, p.dstOffset, p.bytes,
                                      UInt8, p.peer));
      TransferMembers(e, client, HcommPayload, RecvRole, e.mem.buffers[b], b, p.dstOffset, p.bytes, UInt8, p.peer);
      WrapColls(SubmitTransfer(e, client, HcommPayload, RecvRole, e.mem.buffers[b], b, p.dstOffset, p.bytes, UInt8,
                               p.peer));
    } else {
      StagedColls(e, client, id);
    }
  }

  lemma WrapColls(r: (Engine, Reply))
    ensures SameColls(r.0, Wrap(r).0)
  {
  }

  lemma StagedColls(e: Engine, client: nat, id: nat)
    requires Legal(e, ERead(client, id))
    requires e.plans[id].client != client || e.plans[id].path != SimDirect ||
             (e.plans[id].role != SourceSend && e.plans[id].role != TargetRecv)
    ensures SameColls(e, Read(e, client, id).0)
  {
  }

  lemma QuietColls(f: Reducer, e: Engine, ev: Event)
    requires Legal(e, ev) && !ev.ECollective? && !ev.ETransfer? && !ev.ERead? && !ev.EAttach? && !ev.EOpen?
    ensures SameColls(e, Step(f, e, ev).0)
  {
    QuietTables(f, e, ev);
  }

  lemma AttachPaired(e: Engine, g: Group, log: Log, prog: Program, client: nat, comm: string, rank: nat, size: nat)
    requires Paired(e.clients, e.work.colls, g, log, prog) && client in e.clients
    requires Conforms(e, g, prog, EAttach(client, comm, rank, size))
    ensures var e' := Attach(e, client, comm, rank, size).0; Paired(e'.clients, e'.work.colls, g, log, prog)
  {
  }

  lemma OpenPaired(e: Engine, g: Group, log: Log, prog: Program, client: nat)
    requires Paired(e.clients, e.work.colls, g, log, prog) && client !in e.clients
    ensures var e' := Open(e, client).0; Paired(e'.clients, e'.work.colls, g, log, prog)
  {
  }

  lemma StepPaired(f: Reducer, e: Engine, g: Group, log: Log, prog: Program, ev: Event)
    requires Inv(e) && Paired(e.clients, e.work.colls, g, log, prog) && Legal(e, ev) && Conforms(e, g, prog, ev)
    ensures var e' := Step(f, e, ev).0; Paired(e'.clients, e'.work.colls, g, NextLog(e, g, log, ev), prog)
  {
    var e' := Step(f, e, ev).0;
    if ev.ECollective? {
      CollectivePaired(f, e, g, log, prog, ev);
    } else if ev.ETransfer? {
      TransferMembers(e, ev.client, ev.table, ev.role, e.mem.buffers[ev.buffer], ev.buffer, ev.offset, ev.count,
                      ev.dtype, ev.peer);
      MembersPaired(e, e', g, log, prog);
    } else if ev.ERead? {
      ReadMembers(e, ev.client, ev.plan);
      MembersPaired(e, e', g, log, prog);
    } else if ev.EAttach? {
      AttachPaired(e, g, log, prog, ev.client, ev.comm, ev.rank, ev.size);
    } else if ev.EOpen? {
      OpenPaired(e, g, log, prog, ev.client);
    } else {
      QuietColls(f, e, ev);
    }
  }

  /** The engine at one moment of a run, with what the ranks have submitted so far. */
  datatype Moment = Moment(engine: Engine, log: Log)

  predicate MatchingStep(f: Reducer, g: Group, prog: Program, m: Moment, ev: Event, m': Moment) {
    && Legal(m.engine, ev) && Conforms(m.engine, g, prog, ev)
    && m' == Moment(Step(f, m.engine, ev).0, NextLog(m.engine, g, m.log, ev))
  }

  /** A run in which the group's ranks keep to the program, moment by moment. */
  predicate MatchingRun(f: Reducer, g: Group, prog: Program, events: seq<Event>, moments: seq<Moment>) {
    && |moments| == |events| + 1
    && forall n :: 0 <= n < |events| ==> MatchingStep(f, g, prog, moments[n], events[n], moments[n + 1])
  }

  /** No entry of the group's kind and size waits under its communicator's name. */
  predicate Unused(colls: map<CollKey, PendingColl>, g: Group) {
    forall k :: k in colls ==> !(k.comm == g.comm && k.size == |g.members| && k.kind == g.kind)
  }

  /** A group starts with nothing submitted once every rank has attached and nothing of the
      group's own is pending. */
  lemma FreshGroup(e: Engine, g: Group, prog: Program)
    requires Attended(e.clients, g)
    requires forall r :: 0 <= r < |g.members| ==> Seq(e.clients[g.members[r]], CollCounter(g.kind)) == 0
    requires Unused(e.work.colls, g)
    ensures Paired(e.clients, e.work.colls, g, seq(|g.members|, r => []), prog)
  {
    var log: Log := seq(|g.members|, r => []);
    forall i: nat
      ensures EntryMatches(e.work.colls, g, log, prog, i)
    {
      assert GroupKey(g, i) !in e.work.colls;
      assert !SomeReached(log, i);
    }
  }

  /** The pairing theorem: in every interleaving the table holds, for each number, exactly the
      submissions of that number, as they were snapshotted, while some rank is missing. */
  lemma {:induction false} PairedForever(
    f: Reducer, g: Group, prog: Program, events: seq<Event>, moments: seq<Moment>, n: nat)
    requires MatchingRun(f, g, prog, events, moments) && n <= |events|
    requires Inv(moments[0].engine)
    requires Paired(moments[0].engine.clients, moments[0].engine.work.colls, g, moments[0].log, prog)
    ensures var m := moments[n];
            Inv(m.engine) && Paired(m.engine.clients, m.engine.work.colls, g, m.log, prog)
  {
    if n > 0 {
      PairedForever(f, g, prog, events, moments, n - 1);
      MomentKeeps(f, g, prog, moments[n - 1], events[n - 1], moments[n]);
    }
  }

  lemma MomentKeeps(f: Reducer, g: Group, prog: Program, m: Moment, ev: Event, m': Moment)
    requires MatchingStep(f, g, prog, m, ev, m')
    requires Inv(m.engine) && Paired(m.engine.clients, m.engine.work.colls, g, m.log, prog)
    ensures Inv(m'.engine) && Paired(m'.engine.clients, m'.engine.work.colls, g, m'.log, prog)
  {
    StepInv(f, m.engine, ev);
    StepPaired(f, m.engine, g, m.log, prog, ev);
  }

  // ---------------------------------------------------------------------------
  // Delivery

  /** The i-th submissions of all ranks. */
  function Round(log: Log, i: nat): (slots: Slots)
    requires forall r :: 0 <= r < |log| ==> i < |log[r]|
    ensures |slots| == |log| && Full(slots)
  {
    seq(|log|, r requires 0 <= r < |log| => Some(log[r][i]))
  }

  function RoundPayloads(log: Log, i: nat): (payloads: seq<Bytes>)
    requires forall r :: 0 <= r < |log| ==> i < |log[r]|
    ensures |payloads| == |log|
  {
    seq(|log|, r requires 0 <= r < |log| => log[r][i].payload)
  }

  lemma OutcomeFrom(m0: Mem, m: Mem, m': Mem, slots: Slots, out: Option<Bytes>)
    requires Full(slots) && SameBytes(m0, m) && SameShape(m0, m) && Outcome(m, m', slots, out)
    ensures Outcome(m0, m', slots, out)
  {
    if out.Some? && Disjoint(slots, |out.value|) {
      ShapeTransitive(m0, m, m');
      assert Written(m, m', slots, |slots|, out.value);
    }
  }

  /** The delivery theorem: when the last rank submits number `i`, every rank's destination
      holds the output computed from the payloads in rank order, whatever the order of
      arrival; or, if the type cannot be reduced, every IO fails and no byte changes. */
  lemma LastArrivalDelivers(
    f: Reducer, e: Engine, g: Group, log: Log, prog: Program, q: CollRequest, rank: nat, dst: nat, offset: nat)
    requires Inv(e) && Paired(e.clients, e.work.colls, g, log, prog) && rank < |log|
    requires ArrivalOk(e.mem, q.key, q.params, rank, q.payload, dst, offset)
    requires q.key == GroupKey(g, |log[rank]|) && q.params == prog(|log[rank]|)
    requires forall r :: 0 <= r < |log| && r != rank ==> |log[rank]| < |log[r]|
    ensures var i := |log[rank]|;
            var log' := Extended(log, rank, CollSlot(q.payload, dst, offset, e.mem.next));
            var e' := JoinCollective(f, e, g.members[rank], q, dst, offset).0;
            && (forall r :: 0 <= r < |log'| ==> i < |log'[r]|)
            && Outcome(e.mem, e'.mem, Round(log', i), Output(f, g.kind, prog(i), RoundPayloads(log', i)))
  {
    var i := |log[rank]|;
    var slot := CollSlot(q.payload, dst, offset, e.mem.next);
    var log' := Extended(log, rank, slot);
    FoundEntry(e.work, e.clients, g, log, prog, rank);
    assert e.clients[g.members[rank]].rank == rank;
    forall r | 0 <= r < |log'|
      ensures i < |log'[r]|
    {
      if r != rank {
        assert i < |log[r]|;
      }
    }
    RoundArrives(f, CoreOf(e), q.key, q.params, rank, slot, Round(log', i));
    var found := EntryOr(e.work, q.key, q.params);
    forall r | 0 <= r < |log|
      ensures found.slots[rank := Some(slot)][r] == Round(log', i)[r]
    {
      assert found.slots[r] == SlotOf(log, r, i);
    }
    assert found.slots[rank := Some(slot)] == Round(log', i);
    PayloadsOfRound(log', i, PendingColl(q.params, Round(log', i), found.arrivals + 1));
  }

  lemma PayloadsOfRound(log: Log, i: nat, e: PendingColl)
    requires (forall r :: 0 <= r < |log| ==> i < |log[r]|) && e.slots == Round(log, i)
    ensures Payloads(e) == RoundPayloads(log, i)
  {
  }

  lemma RoundArrives(f: Reducer, c: Core, k: CollKey, p: CollParams, rank: nat, slot: CollSlot, slots: Slots)
    requires Balanced(c.mem, c.work) && CollsValid(c.mem, c.work) && slot.io == c.mem.next
    requires ArrivalOk(c.mem, k, p, rank, slot.payload, slot.dst, slot.offset) && Full(slots)
    requires var e := EntryOr(c.work, k, p); e.params == p && rank < |e.slots| && e.slots[rank] == None
    ensures var e := EntryOr(c.work, k, p);
            e.slots[rank := Some(slot)] == slots && |slots| > 0 ==>
              Outcome(c.mem, Arrive(f, c, k, p, rank, slot.payload, slot.dst, slot.offset).mem, slots,
                      Output(f, k.kind, p, Payloads(PendingColl(p, slots, e.arrivals + 1))))
  {
    var e := EntryOr(c.work, k, p);
    if e.slots[rank := Some(slot)] == slots && |slots| > 0 {
      JoinKeeps(c, k, p, rank, slot);
      BookedKeeps(c.mem, slot.dst);
      var joined := Core(Booked(c.mem, slot.dst), Joined(c.work, k, p, rank, slot));
      ArriveJoins(f, c, k, p, rank, slot);
      JoinedDelivers(f, c.mem, joined, k, PendingColl(p, slots, e.arrivals + 1));
    }
  }

  lemma JoinedDelivers(f: Reducer, m: Mem, joined: Core, k: CollKey, e: PendingColl)
    requires Settling(joined, k) && joined.work.colls[k] == e && EntryValid(joined.mem, k, e) && k.size > 0
    requires Full(e.slots)
    requires SameBytes(m, joined.mem) && SameShape(m, joined.mem)
    ensures e.arrivals == k.size
    ensures Outcome(m, FinishColl(f, joined, k).mem, e.slots, Output(f, k.kind, e.params, Payloads(e)))
  {
    FullEntry(joined.mem, k, e);
    FinishDelivers(f, joined, k);
    OutcomeFrom(m, joined.mem, FinishColl(f, joined, k).mem, e.slots, Output(f, k.kind, e.params, Payloads(e)));
  }

  // ---------------------------------------------------------------------------
  // Whole runs

  /** At this moment, the event is rank `r`'s i-th collective, and `slot` is what it
      submitted: the bytes its source held right then, its destination and its new IO. */
  predicate SnapshotAt(g: Group, prog: Program, m: Moment, ev: Event, r: nat, i: nat, slot: CollSlot) {
    && Legal(m.engine, ev) && Arriving(m.engine, g, ev).Some? && m.engine.clients[ev.client].rank == r
    && r < |m.log| && |m.log[r]| == i
    && slot ==
      CollSlot(Load(m.engine.mem, ev.src, ev.srcOffset, prog(i).inBytes), ev.dst, ev.dstOffset, m.engine.mem.next)
  }

  lemma ArrivingSnapshots(e: Engine, g: Group, ev: Event)
    requires Legal(e, ev) && Arriving(e, g, ev).Some?
    ensures var q := Arriving(e, g, ev).value;
            && ev.ECollective? && q.payload == Load(e.mem, ev.src, ev.srcOffset, q.params.inBytes)
            && q.key ==
              CollKey(e.clients[ev.client].comm, e.clients[ev.client].size,
                      Seq(e.clients[ev.client], CollCounter(g.kind)), g.kind)
            && DecideCollective(e.clients[ev.client], e.mem, ev.coll, ev.dst, ev.dstOffset, ev.src, ev.srcOffset,
                                ev.count, ev.dtype, ev.op) == Join(q)
  {
  }

  /** A member's arrival is the submission the pairing is about. */
  lemma ArrivingMember(m: Moment, g: Group, prog: Program, ev: Event)
    requires Inv(m.engine) && Paired(m.engine.clients, m.engine.work.colls, g, m.log, prog)
    requires Legal(m.engine, ev) && Conforms(m.engine, g, prog, ev) && Arriving(m.engine, g, ev).Some?
    ensures var q := Arriving(m.engine, g, ev).value;
            var r := m.engine.clients[ev.client].rank;
            && r < |m.log| && g.members[r] == ev.client
            && q.key == GroupKey(g, |m.log[r]|) && q.params == prog(|m.log[r]|)
            && ArrivalOk(m.engine.mem, q.key, q.params, r, q.payload, ev.dst, ev.dstOffset)
  {
    ArrivingSnapshots(m.engine, g, ev);
    var c := m.engine.clients[ev.client];
    assert g.members[c.rank] == ev.client;
    DecidedArrival(c, m.engine.mem, ev.coll, ev.dst, ev.dstOffset, ev.src, ev.srcOffset, ev.count, ev.dtype, ev.op);
  }

  lemma StepAddsSnapshot(f: Reducer, g: Group, prog: Program, m: Moment, ev: Event, m': Moment, r: nat, i: nat)
    requires MatchingStep(f, g, prog, m, ev, m') && r < |m.log| == |m'.log| && i < |m'.log[r]|
    requires Inv(m.engine) && Paired(m.engine.clients, m.engine.work.colls, g, m.log, prog)
    ensures (i < |m.log[r]| && m'.log[r][i] == m.log[r][i]) || SnapshotAt(g, prog, m, ev, r, i, m'.log[r][i])
  {
    if Arriving(m.engine, g, ev).Some? {
      ArrivingMember(m, g, prog, ev);
      ArrivingSnapshots(m.engine, g, ev);
      var q := Arriving(m.engine, g, ev).value;
      var rank, slot := m.engine.clients[ev.client].rank, CollSlot(q.payload, ev.dst, ev.dstOffset, m.engine.mem.next);
      assert m'.log == Extended(m.log, rank, slot);
      ExtendedAt(m.log, rank, slot, r, i);
    }
  }

  lemma ExtendedAt(log: Log, rank: nat, slot: CollSlot, r: nat, i: nat)
    requires rank < |log| && r < |log| && i < |Extended(log, rank, slot)[r]|
    ensures (i < |log[r]| && Extended(log, rank, slot)[r][i] == log[r][i]) ||
            (r == rank && i == |log[r]| && Extended(log, rank, slot)[r][i] == slot)
  {
  }

  /** Everything in the log was snapshotted at the submission it stands for. */
  lemma {:induction false} LogIsSnapshots(
    f: Reducer, g: Group, prog: Program, events: seq<Event>, moments: seq<Moment>, n: nat, r: nat, i: nat)
    requires MatchingRun(f, g, prog, events, moments) && n <= |events|
    requires Inv(moments[0].engine)
    requires Paired(moments[0].engine.clients, moments[0].engine.work.colls, g, moments[0].log, prog)
    requires (forall q :: 0 <= q < |moments[0].log| ==> moments[0].log[q] == []) && |moments[n].log| == |g.members|
    requires r < |g.members| && i < |moments[n].log[r]|
    ensures exists k :: 0 <= k < n && SnapshotAt(g, prog, moments[k], events[k], r, i, moments[n].log[r][i])
  {
    if n > 0 {
      PairedForever(f, g, prog, events, moments, n - 1);
      var m, m' := moments[n - 1], moments[n];
      assert MatchingStep(f, g, prog, m, events[n - 1], m');
      StepAddsSnapshot(f, g, prog, m, events[n - 1], m', r, i);
      if i < |m.log[r]| && m'.log[r][i] == m.log[r][i] {
        LogIsSnapshots(f, g, prog, events, moments, n - 1, r, i);
      }
    }
  }

  /** Event `n` is the last rank's submission of round `i`. */
  predicate CompletesRound(g: Group, m: Moment, ev: Event, i: nat) {
    && Legal(m.engine, ev) && Arriving(m.engine, g, ev).Some?
    && m.engine.clients[ev.client].rank < |m.log| && |m.log[m.engine.clients[ev.client].rank]| == i
    && forall q :: 0 <= q < |m.log| && q != m.engine.clients[ev.client].rank ==> i < |m.log[q]|
  }

  lemma RoundCompletes(f: Reducer, g: Group, prog: Program, m: Moment, ev: Event, m': Moment, i: nat)
    requires Inv(m.engine) && Paired(m.engine.clients, m.engine.work.colls, g, m.log, prog)
    requires MatchingStep(f, g, prog, m, ev, m') && CompletesRound(g, m, ev, i)
    ensures |m'.log| == |g.members| && forall r :: 0 <= r < |m'.log| ==> i < |m'.log[r]|
    ensures Outcome(m.engine.mem, m'.engine.mem, Round(m'.log, i), Output(f, g.kind, prog(i), RoundPayloads(m'.log, i)))
  {
    ArrivingMember(m, g, prog, ev);
    ArrivingSnapshots(m.engine, g, ev);
    var q, r := Arriving(m.engine, g, ev).value, m.engine.clients[ev.client].rank;
    assert m'.engine == JoinCollective(f, m.engine, g.members[r], q, ev.dst, ev.dstOffset).0;
    assert m'.log == Extended(m.log, r, CollSlot(q.payload, ev.dst, ev.dstOffset, m.engine.mem.next));
    LastArrivalDelivers(f, m.engine, g, m.log, prog, q, r, ev.dst, ev.dstOffset);
  }

  lemma RoundDelivers(f: Reducer, g: Group, prog: Program, events: seq<Event>, moments: seq<Moment>, n: nat, i: nat)
    requires MatchingRun(f, g, prog, events, moments) && n < |events|
    requires Inv(moments[0].engine)
    requires Paired(moments[0].engine.clients, moments[0].engine.work.colls, g, moments[0].log, prog)
    requires CompletesRound(g, moments[n], events[n], i)
    ensures var log := moments[n + 1].log;
            && |log| == |g.members| && (forall r :: 0 <= r < |log| ==> i < |log[r]|)
            && Outcome(moments[n].engine.mem, moments[n + 1].engine.mem, Round(log, i),
                       Output(f, g.kind, prog(i), RoundPayloads(log, i)))
  {
    PairedForever(f, g, prog, events, moments, n);
    assert MatchingStep(f, g, prog, moments[n], events[n], moments[n + 1]);
    RoundCompletes(f, g, prog, moments[n], events[n], moments[n + 1], i);
  }

  /** The collective theorem. Take any run that starts with a freshly attached group and in
      which its ranks keep to one program, with anything else going on in between. Whenever
      the last rank submits round `i`, every rank's destination receives the rank-order result
      of that round (or every IO fails and nothing changes, if the type cannot be reduced);
      and what entered the result is, for each rank, the bytes its source held at its own
      submission of round `i`, whatever happened to the source since. */
  lemma CollectivesDeliver(
    f: Reducer, g: Group, prog: Program, events: seq<Event>, moments: seq<Moment>, n: nat, i: nat)
    requires MatchingRun(f, g, prog, events, moments) && n < |events|
    requires Inv(moments[0].engine) && Attended(moments[0].engine.clients, g)
    requires forall r :: 0 <= r < |g.members| ==> Seq(moments[0].engine.clients[g.members[r]], CollCounter(g.kind)) == 0
    requires Unused(moments[0].engine.work.colls, g)
    requires moments[0].log == seq(|g.members|, r => [])
    requires CompletesRound(g, moments[n], events[n], i)
    ensures var log := moments[n + 1].log;
            && |log| == |g.members| && (forall r :: 0 <= r < |log| ==> i < |log[r]|)
            && Outcome(moments[n].engine.mem, moments[n + 1].engine.mem, Round(log, i),
                       Output(f, g.kind, prog(i), RoundPayloads(log, i)))
            && forall r :: 0 <= r < |log| ==>
                 exists k :: 0 <= k <= n && SnapshotAt(g, prog, moments[k], events[k], r, i, log[r][i])
  {
    FreshGroup(moments[0].engine, g, prog);
    RoundDelivers(f, g, prog, events, moments, n, i);
    var log := moments[n + 1].log;
    forall r | 0 <= r < |log|
      ensures exists k :: 0 <= k <= n && SnapshotAt(g, prog, moments[k], events[k], r, i, log[r][i])
    {
      LogIsSnapshots(f, g, prog, events, moments, n + 1, r, i);
    }
  }
}
