/** Simulated pair transfers: a send and a receive meet in an entry of a pair table; the
    second half to arrive moves the bytes and completes both IOs. Point-to-point operations
    and HCOMM payload copies have a table each and follow the same steps. */
module SimPair {
  import opened Common
  import opened SimState
  import opened SimLedger
  import opened SimCollective
  import opened SimCollectiveInv
  import opened SimArrive

  function PairOr(w: Work, k: PairKey): PendingPair {
    if k in w.pairs then w.pairs[k] else PendingPair(None, None, None)
  }

  function SetPair(w: Work, k: PairKey, e: PendingPair): Work { w.(pairs := w.pairs[k := e]) }

  function ErasePair(w: Work, k: PairKey): Work { w.(pairs := w.pairs - {k}) }

  /** Fails the halves that have arrived and drops the entry. */
  function FailPair(c: Core, k: PairKey, status: Status): Core {
    if k !in c.work.pairs then c
    else
      var e := c.work.pairs[k];
      var m1 := if e.recv.Some? then ReleaseBuffer(c.mem, e.recv.value.dst) else c.mem;
      var m2 := if e.send.Some? then FinishIo(m1, e.send.value.io, status, 0, 0) else m1;
      var m3 := if e.recv.Some? then FinishIo(m2, e.recv.value.io, status, 0, 0) else m2;
      Core(m3, ErasePair(c.work, k))
  }

  /** Moves the payload into the destination and completes the receive, then the send. */
  function FinishPair(c: Core, k: PairKey): Core {
    if k !in c.work.pairs || c.work.pairs[k].send == None || c.work.pairs[k].recv == None then c
    else
      var send, recv := c.work.pairs[k].send.value, c.work.pairs[k].recv.value;
      var n, sum := |send.payload|, Checksum32(send.payload);
      var m1 := ReleaseBuffer(Store(c.mem, recv.dst, recv.offset, send.payload), recv.dst);
      var m2 := FinishIo(m1, recv.io, Ok, n, sum);
      Core(FinishIo(m2, send.io, Ok, n, sum), ErasePair(c.work, k))
  }

  /** A validated submission reaches the table. Its IO is handle `c.mem.next`. A send brings
      its payload; a receive brings its destination. */
  function Meet(c: Core, k: PairKey, role: PairRole, meta: PairMeta, payload: Bytes, dst: nat, offset: nat): Core {
    var e := PairOr(c.work, k);
    if (e.meta.Some? && e.meta.value != meta) || (if role == SendRole then e.send.Some? else e.recv.Some?) then
      var failed := FailPair(c, k, InvalidArgument);
      failed.(mem := NewIo(failed.mem, DoneIo(InvalidArgument)))
    else
      var io := c.mem.next;
      var joined := match role
        case SendRole =>
          Core(NewIo(c.mem, PendingIo()),
               SetPair(c.work, k, e.(meta := Some(meta), send := Some(SendHalf(payload, io)))))
        case RecvRole =>
          Core(Booked(c.mem, dst),
               SetPair(c.work, k, e.(meta := Some(meta), recv := Some(RecvHalf(dst, offset, io)))));
      var e' := joined.work.pairs[k];
      if e'.send.Some? && e'.recv.Some? then FinishPair(joined, k) else joined
  }

  // ---------------------------------------------------------------------------
  // What the tables keep

  /** The halves that are present agree with the recorded transfer. */
  predicate HalvesValid(m: Mem, e: PendingPair) {
    && e.meta.Some?
    && (e.send.Some? ==> |e.send.value.payload| == e.meta.value.bytes)
    && (e.recv.Some? ==> ValidRange(m, e.recv.value.dst, e.recv.value.offset, e.meta.value.bytes))
  }

  /** An entry at rest waits for exactly one half. */
  predicate PairValid(m: Mem, e: PendingPair) {
    HalvesValid(m, e) && (e.send.Some? <==> e.recv == None)
  }

  predicate PairsValid(m: Mem, w: Work) {
    forall k :: k in w.pairs ==> PairValid(m, w.pairs[k])
  }

  predicate SaveFor(w: Work, w': Work, k: PairKey) {
    && w'.colls == w.colls && w'.windows == w.windows && w'.tasks == w.tasks && w'.workers == w.workers
    && w'.pairs - {k} == w.pairs - {k}
  }

  lemma PairsShape(m: Mem, w: Work, m': Mem, w': Work)
    requires PairsValid(m, w) && SameShape(m, m') && w'.pairs == w.pairs
    ensures PairsValid(m', w')
  {
    forall k | k in w'.pairs
      ensures PairValid(m', w'.pairs[k])
    {
      PairShape(m, m', w.pairs[k]);
    }
  }

  lemma PairShape(m: Mem, m': Mem, e: PendingPair)
    requires SameShape(m, m')
    ensures HalvesValid(m', e) == HalvesValid(m, e) && PairValid(m', e) == PairValid(m, e)
  {
  }

  /** Changing one entry keeps the table valid if the new entry, if any, is valid. */
  lemma PairsBut(m: Mem, w: Work, m': Mem, w': Work, k: PairKey)
    requires PairsValid(m, w) && SameShape(m, m') && SaveFor(w, w', k)
    requires k in w'.pairs ==> PairValid(m', w'.pairs[k])
    ensures PairsValid(m', w')
  {
    forall j | j in w'.pairs
      ensures PairValid(m', w'.pairs[j])
    {
      if j != k {
        assert j in w'.pairs - {k} && (w'.pairs - {k})[j] == w'.pairs[j];
        assert j in w.pairs && w.pairs[j] == w'.pairs[j];
        PairShape(m, m', w.pairs[j]);
      }
    }
  }

  // ---------------------------------------------------------------------------
  // Slots of a pair entry

  lemma SendDropped(w: Work, k: PairKey, e: PendingPair)
    requires k in w.pairs && w.pairs[k] == e && e.send.Some? && e.recv == None
    ensures SlotChanged(w, ErasePair(w, k), SendAt(k), None) && SaveFor(w, ErasePair(w, k), k)
  {
  }

  lemma RecvDropped(w: Work, k: PairKey, e: PendingPair)
    requires k in w.pairs && w.pairs[k] == e && e.recv.Some? && e.send == None
    ensures SlotChanged(w, ErasePair(w, k), RecvAt(k), None) && SaveFor(w, ErasePair(w, k), k)
  {
  }

  lemma RecvVacated(w: Work, k: PairKey, e: PendingPair)
    requires k in w.pairs && w.pairs[k] == e && e.recv.Some?
    ensures SlotChanged(w, SetPair(w, k, e.(recv := None)), RecvAt(k), None)
    ensures SaveFor(w, SetPair(w, k, e.(recv := None)), k)
  {
  }

  lemma SendFilled(w: Work, k: PairKey, meta: Option<PairMeta>, send: SendHalf)
    requires PairOr(w, k).send == None
    ensures var w' := SetPair(w, k, PairOr(w, k).(meta := meta, send := Some(send)));
            && HoldAt(w, SendAt(k)) == None && SlotChanged(w, w', SendAt(k), Some(Hold(None, Some(send.io))))
            && SaveFor(w, w', k)
  {
  }

  lemma RecvFilled(w: Work, k: PairKey, meta: Option<PairMeta>, recv: RecvHalf)
    requires PairOr(w, k).recv == None
    ensures var w' := SetPair(w, k, PairOr(w, k).(meta := meta, recv := Some(recv)));
            && HoldAt(w, RecvAt(k)) == None && SlotChanged(w, w', RecvAt(k), Some(Hold(Some(recv.dst), Some(recv.io))))
            && SaveFor(w, w', k)
  {
  }

  // ---------------------------------------------------------------------------
  // Settling

  lemma IoSettled(m: Mem, io: nat, status: Status, bytes: nat, checksum: bv32)
    requires io in m.ios && m.ios[io].refs == 1
    ensures var m' := FinishIo(m, io, status, bytes, checksum);
            && CountsMoved(m, m', None, -1) && m'.fault == m.fault
            && SameShape(m, m') && SameBytes(m, m') && m'.next == m.next
            && m'.ios == m.ios[io := Io(true, status, bytes, checksum, 0)]
  {
  }

  lemma SendSettles(m: Mem, w: Work, k: PairKey, status: Status, bytes: nat, checksum: bv32)
    requires Balanced(m, w) && k in w.pairs && w.pairs[k].send.Some? && w.pairs[k].recv == None
    ensures var m' := FinishIo(m, w.pairs[k].send.value.io, status, bytes, checksum);
            && Balanced(m', ErasePair(w, k)) && SameShape(m, m') && SameBytes(m, m') && m'.next == m.next
  {
    var io := w.pairs[k].send.value.io;
    HeldReferences(m, w, SendAt(k), Hold(None, Some(io)));
    SendDropped(w, k, w.pairs[k]);
    IoSettled(m, io, status, bytes, checksum);
    BalanceDrop(m, w, FinishIo(m, io, status, bytes, checksum), ErasePair(w, k), SendAt(k), Hold(None, Some(io)));
  }

  /** Releases the destination and finishes the receive of an entry, going to `w'`. */
  lemma RecvSettles(m: Mem, w: Work, w': Work, k: PairKey, stored: Mem, status: Status, bytes: nat, checksum: bv32)
    requires Balanced(m, w) && k in w.pairs && w.pairs[k].recv.Some? && SlotChanged(w, w', RecvAt(k), None)
    requires stored.ios == m.ios && stored.next == m.next && stored.fault == m.fault && CountsMoved(m, stored, None, 0)
    ensures var recv := w.pairs[k].recv.value;
            var m' := FinishIo(ReleaseBuffer(stored, recv.dst), recv.io, status, bytes, checksum);
            Balanced(m', w') && SameShape(stored, m') && SameBytes(stored, m') && m'.next == m.next
  {
    var recv := w.pairs[k].recv.value;
    var hold := Hold(Some(recv.dst), Some(recv.io));
    HeldReferences(m, w, RecvAt(k), hold);
    Settled(stored, recv.dst, recv.io, status, bytes, checksum);
    BalanceDrop(m, w, FinishIo(ReleaseBuffer(stored, recv.dst), recv.io, status, bytes, checksum), w', RecvAt(k), hold);
  }

  /** What an operation on entry `k` keeps. */
  ghost predicate PairKept(c: Core, c': Core, k: PairKey) {
    && Balanced(c'.mem, c'.work) && PairsValid(c'.mem, c'.work)
    && SameShape(c.mem, c'.mem) && SaveFor(c.work, c'.work, k)
  }

  lemma FailPairKeeps(c: Core, k: PairKey, status: Status)
    requires Balanced(c.mem, c.work) && PairsValid(c.mem, c.work)
    ensures var c' := FailPair(c, k, status);
            && PairKept(c, c', k) && SameBytes(c.mem, c'.mem) && c'.mem.next == c.mem.next
            && c'.work == ErasePair(c.work, k)
  {
    if k in c.work.pairs {
      var e := c.work.pairs[k];
      if e.send.Some? {
        SendDropped(c.work, k, e);
        SendSettles(c.mem, c.work, k, status, 0, 0);
      } else {
        RecvDropped(c.work, k, e);
        RecvSettles(c.mem, c.work, ErasePair(c.work, k), k, c.mem, status, 0, 0);
      }
      PairsBut(c.mem, c.work, FailPair(c, k, status).mem, ErasePair(c.work, k), k);
    } else {
      assert c.work.pairs - {k} == c.work.pairs;
    }
  }

  lemma FinishPairSettles(c: Core, k: PairKey)
    requires Balanced(c.mem, c.work)
    requires k in c.work.pairs && HalvesValid(c.mem, c.work.pairs[k])
    requires c.work.pairs[k].send.Some? && c.work.pairs[k].recv.Some?
    ensures var c' := FinishPair(c, k);
            && Balanced(c'.mem, c'.work) && SameShape(c.mem, c'.mem) && c'.mem.next == c.mem.next
            && c'.work == ErasePair(c.work, k)
  {
    var e := c.work.pairs[k];
    var send, recv := e.send.value, e.recv.value;
    var n, sum := |send.payload|, Checksum32(send.payload);
    StoreKeeps(c.mem, recv.dst, recv.offset, send.payload);
    var stored := Store(c.mem, recv.dst, recv.offset, send.payload);
    var w1 := SetPair(c.work, k, e.(recv := None));
    RecvVacated(c.work, k, e);
    RecvSettles(c.mem, c.work, w1, k, stored, Ok, n, sum);
    var m2 := FinishIo(ReleaseBuffer(stored, recv.dst), recv.io, Ok, n, sum);
    SendSettles(m2, w1, k, Ok, n, sum);
    assert ErasePair(w1, k) == ErasePair(c.work, k) by {
      assert w1.pairs - {k} == c.work.pairs - {k};
    }
    ShapeTransitive(c.mem, stored, m2);
    ShapeTransitive(c.mem, m2, FinishPair(c, k).mem);
  }

  // ---------------------------------------------------------------------------
  // Arrivals

  predicate MeetOk(m: Mem, role: PairRole, meta: PairMeta, payload: Bytes, dst: nat, offset: nat) {
    if role == SendRole then |payload| == meta.bytes else ValidRange(m, dst, offset, meta.bytes)
  }

  lemma SendJoins(c: Core, k: PairKey, meta: PairMeta, payload: Bytes)
    requires Balanced(c.mem, c.work) && PairOr(c.work, k).send == None
    ensures var w' := SetPair(c.work, k,
                              PairOr(c.work, k).(meta := Some(meta), send := Some(SendHalf(payload, c.mem.next))));
            Balanced(NewIo(c.mem, PendingIo()), w') && SaveFor(c.work, w', k)
  {
    var half := SendHalf(payload, c.mem.next);
    SendFilled(c.work, k, Some(meta), half);
    BalanceAdd(c.mem, c.work, NewIo(c.mem, PendingIo()),
               SetPair(c.work, k, PairOr(c.work, k).(meta := Some(meta), send := Some(half))),
               SendAt(k), Hold(None, Some(c.mem.next)));
  }

  lemma RecvJoins(c: Core, k: PairKey, meta: PairMeta, dst: nat, offset: nat)
    requires Balanced(c.mem, c.work) && PairOr(c.work, k).recv == None && dst in c.mem.buffers
    ensures var w' := SetPair(c.work, k,
                              PairOr(c.work, k).(meta := Some(meta), recv := Some(RecvHalf(dst, offset, c.mem.next))));
            Balanced(Booked(c.mem, dst), w') && SaveFor(c.work, w', k)
  {
    var half := RecvHalf(dst, offset, c.mem.next);
    RecvFilled(c.work, k, Some(meta), half);
    BookedKeeps(c.mem, dst);
    BalanceAdd(c.mem, c.work, Booked(c.mem, dst),
               SetPair(c.work, k, PairOr(c.work, k).(meta := Some(meta), recv := Some(half))),
               RecvAt(k), Hold(Some(dst), Some(c.mem.next)));
  }

  lemma EraseTwice(w: Work, k: PairKey)
    ensures SaveFor(w, ErasePair(w, k), k) && k !in ErasePair(w, k).pairs
  {
  }

  lemma JoinedFinishes(c: Core, joined: Core, k: PairKey)
    requires PairsValid(c.mem, c.work) && Balanced(joined.mem, joined.work)
    requires SameShape(c.mem, joined.mem) && SaveFor(c.work, joined.work, k)
    requires k in joined.work.pairs && HalvesValid(joined.mem, joined.work.pairs[k])
    requires joined.work.pairs[k].send.Some? || joined.work.pairs[k].recv.Some?
    ensures var e' := joined.work.pairs[k];
            var c' := if e'.send.Some? && e'.recv.Some? then FinishPair(joined, k) else joined;
            PairKept(c, c', k) && c'.mem.next == joined.mem.next
  {
    var e' := joined.work.pairs[k];
    if e'.send.Some? && e'.recv.Some? {
      FinishPairSettles(joined, k);
      var c' := FinishPair(joined, k);
      ShapeTransitive(c.mem, joined.mem, c'.mem);
      EraseTwice(joined.work, k);
      PairsBut(c.mem, c.work, c'.mem, c'.work, k);
    } else {
      PairsBut(c.mem, c.work, joined.mem, joined.work, k);
    }
  }

  lemma MeetRejects(c: Core, k: PairKey)
    requires Balanced(c.mem, c.work) && PairsValid(c.mem, c.work)
    ensures var failed := FailPair(c, k, InvalidArgument);
            var c' := failed.(mem := NewIo(failed.mem, DoneIo(InvalidArgument)));
            PairKept(c, c', k) && SameBytes(c.mem, c'.mem) && c'.mem.next == c.mem.next + 1
  {
    var failed := FailPair(c, k, InvalidArgument);
    FailPairKeeps(c, k, InvalidArgument);
    var m' := NewIo(failed.mem, DoneIo(InvalidArgument));
    DoneIoKeeps(failed.mem, failed.work, InvalidArgument);
    PairsShape(failed.mem, failed.work, m', failed.work);
  }

  /** The invariant step for pair transfers. */
  lemma MeetKeeps(c: Core, k: PairKey, role: PairRole, meta: PairMeta, payload: Bytes, dst: nat, offset: nat)
    requires Balanced(c.mem, c.work) && PairsValid(c.mem, c.work) && MeetOk(c.mem, role, meta, payload, dst, offset)
    ensures var c' := Meet(c, k, role, meta, payload, dst, offset);
            PairKept(c, c', k) && c'.mem.next == c.mem.next + 1
  {
    var e := PairOr(c.work, k);
    if (e.meta.Some? && e.meta.value != meta) || (if role == SendRole then e.send.Some? else e.recv.Some?) {
      MeetRejects(c, k);
    } else {
      match role
      case SendRole => MeetSend(c, k, meta, payload);
      case RecvRole => MeetRecv(c, k, meta, dst, offset);
    }
  }

  lemma MeetSend(c: Core, k: PairKey, meta: PairMeta, payload: Bytes)
    requires Balanced(c.mem, c.work) && PairsValid(c.mem, c.work) && |payload| == meta.bytes
    requires PairOr(c.work, k).send == None && (PairOr(c.work, k).meta == None || PairOr(c.work, k).meta == Some(meta))
    ensures var e' := PairOr(c.work, k).(meta := Some(meta), send := Some(SendHalf(payload, c.mem.next)));
            var joined := Core(NewIo(c.mem, PendingIo()), SetPair(c.work, k, e'));
            var c' := if e'.send.Some? && e'.recv.Some? then FinishPair(joined, k) else joined;
            PairKept(c, c', k) && c'.mem.next == c.mem.next + 1
  {
    var e' := PairOr(c.work, k).(meta := Some(meta), send := Some(SendHalf(payload, c.mem.next)));
    SendJoins(c, k, meta, payload);
    var joined := Core(NewIo(c.mem, PendingIo()), SetPair(c.work, k, e'));
    JoinedFinishes(c, joined, k);
  }

  lemma MeetRecv(c: Core, k: PairKey, meta: PairMeta, dst: nat, offset: nat)
    requires Balanced(c.mem, c.work) && PairsValid(c.mem, c.work) && ValidRange(c.mem, dst, offset, meta.bytes)
    requires PairOr(c.work, k).recv == None && (PairOr(c.work, k).meta == None || PairOr(c.work, k).meta == Some(meta))
    ensures var e' := PairOr(c.work, k).(meta := Some(meta), recv := Some(RecvHalf(dst, offset, c.mem.next)));
            var joined := Core(Booked(c.mem, dst), SetPair(c.work, k, e'));
            var c' := if e'.send.Some? && e'.recv.Some? then FinishPair(joined, k) else joined;
            PairKept(c, c', k) && c'.mem.next == c.mem.next + 1
  {
    var e' := PairOr(c.work, k).(meta := Some(meta), recv := Some(RecvHalf(dst, offset, c.mem.next)));
    RecvJoins(c, k, meta, dst, offset);
    BookedKeeps(c.mem, dst);
    var joined := Core(Booked(c.mem, dst), SetPair(c.work, k, e'));
    JoinedFinishes(c, joined, k);
  }
}
