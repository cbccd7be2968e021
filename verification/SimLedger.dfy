/** The reference ledger: which waiting slot holds which buffer and which IO, and the
    balance between the slots and the reference counts. */
module SimLedger {
  import opened Common
  import opened SimState

  /** A place in the tables that can hold references. */
  datatype Slot =
    | CollAt(coll: CollKey, rank: nat)
    | SendAt(send: PairKey)
    | RecvAt(recv: PairKey)
    | WindowAt(window: nat)
    | TaskAt(task: nat)
    | WorkerAt(worker: nat)

  /** The references of a slot: a buffer it may write, an IO it must complete. */
  datatype Hold = Hold(buffer: Option<nat>, io: Option<nat>)

  function HoldAt(w: Work, s: Slot): Option<Hold> {
    match s
    case CollAt(k, r) =>
      if k in w.colls && r < |w.colls[k].slots| && w.colls[k].slots[r].Some?
      then Some(Hold(Some(w.colls[k].slots[r].value.dst), Some(w.colls[k].slots[r].value.io)))
      else None
    case SendAt(k) =>
      if k in w.pairs && w.pairs[k].send.Some? then Some(Hold(None, Some(w.pairs[k].send.value.io))) else None
    case RecvAt(k) =>
      if k in w.pairs && w.pairs[k].recv.Some?
      then Some(Hold(Some(w.pairs[k].recv.value.dst), Some(w.pairs[k].recv.value.io)))
      else None
    case WindowAt(i) => if i in w.windows then Some(Hold(Some(w.windows[i].buffer), None)) else None
    case TaskAt(i) => if i in w.tasks then Some(Hold(None, Some(w.tasks[i].wrapper))) else None
    case WorkerAt(i) => if i in w.workers then Some(Hold(w.workers[i].buffer, Some(w.workers[i].io))) else None
  }

  /** All slots that hold something. */
  ghost function Slots(w: Work): set<Slot> {
    (set k, r | k in w.colls && 0 <= r < |w.colls[k].slots| && w.colls[k].slots[r].Some? :: CollAt(k, r)) +
    (set k | k in w.pairs && w.pairs[k].send.Some? :: SendAt(k)) +
    (set k | k in w.pairs && w.pairs[k].recv.Some? :: RecvAt(k)) +
    (set i | i in w.windows :: WindowAt(i)) +
    (set i | i in w.tasks :: TaskAt(i)) +
    (set i | i in w.workers :: WorkerAt(i))
  }

  lemma SlotsHold(w: Work, s: Slot)
    ensures s in Slots(w) <==> HoldAt(w, s).Some?
  {
  }

  predicate HoldsBuffer(w: Work, s: Slot, b: nat) {
    HoldAt(w, s).Some? && HoldAt(w, s).value.buffer == Some(b)
  }

  predicate HoldsIo(w: Work, s: Slot, io: nat) {
    HoldAt(w, s).Some? && HoldAt(w, s).value.io == Some(io)
  }

  ghost function BufferHolders(w: Work, b: nat): set<Slot> {
    set s | s in Slots(w) && HoldsBuffer(w, s, b)
  }

  lemma BufferHolder(w: Work, s: Slot, b: nat)
    ensures s in BufferHolders(w, b) <==> HoldsBuffer(w, s, b)
  {
    SlotsHold(w, s);
  }

  /** Every reference is to something that has not been released. */
  ghost predicate Anchored(m: Mem, w: Work) {
    && (forall s, b :: HoldsBuffer(w, s, b) ==> b in m.buffers)
    && (forall s, io :: HoldsIo(w, s, io) ==> io in m.ios && m.ios[io].refs == 1)
  }

  /** The buffer counts are the numbers of slots that name the buffer. */
  ghost predicate BuffersBalanced(m: Mem, w: Work) {
    forall b :: b in m.buffers ==> m.buffers[b].pending == |BufferHolders(w, b)|
  }

  /** No IO is in two slots; an IO is pending exactly while its count is one, and then a
      slot holds it. */
  ghost predicate IosBalanced(m: Mem, w: Work) {
    && (forall s, t, io :: HoldsIo(w, s, io) && HoldsIo(w, t, io) ==> s == t)
    && (forall io :: io in m.ios ==>
          && io < m.next
          && (m.ios[io].refs == 0 || m.ios[io].refs == 1)
          && (m.ios[io].done <==> m.ios[io].refs == 0)
          && (m.ios[io].refs == 1 ==> exists s :: HoldsIo(w, s, io)))
  }

  ghost predicate Balanced(m: Mem, w: Work) {
    && !m.fault
    && (forall b :: b in m.buffers ==> b < m.next)
    && Anchored(m, w) && BuffersBalanced(m, w) && IosBalanced(m, w)
  }

  /** `w'` is `w` with the contents of one slot replaced. */
  ghost predicate SlotChanged(w: Work, w': Work, slot: Slot, hold: Option<Hold>) {
    forall s :: HoldAt(w', s) == if s == slot then hold else HoldAt(w, s)
  }

  ghost predicate SameHolds(w: Work, w': Work) {
    forall s :: HoldAt(w', s) == HoldAt(w, s)
  }

  lemma HoldersChanged(w: Work, w': Work, slot: Slot, hold: Option<Hold>, b: nat)
    requires SlotChanged(w, w', slot, hold)
    ensures BufferHolders(w', b) ==
            if hold.Some? && hold.value.buffer == Some(b) then BufferHolders(w, b) + {slot}
              else BufferHolders(w, b) - {slot}
  {
    forall s
      ensures s in BufferHolders(w', b) <==>
              s in if hold.Some? && hold.value.buffer == Some(b) then BufferHolders(w, b) + {slot}
                else BufferHolders(w, b) - {slot}
    {
      BufferHolder(w, s, b);
      BufferHolder(w', s, b);
    }
  }

  lemma SameHolders(w: Work, w': Work, b: nat)
    requires SameHolds(w, w')
    ensures BufferHolders(w', b) == BufferHolders(w, b)
  {
    forall s
      ensures s in BufferHolders(w', b) <==> s in BufferHolders(w, b)
    {
      BufferHolder(w, s, b);
      BufferHolder(w', s, b);
    }
  }

  // ---------------------------------------------------------------------------
  // How the balance moves

  /** The counts of `m'` are those of `m`, moved by `delta` for one buffer. */
  predicate CountsMoved(m: Mem, m': Mem, buffer: Option<nat>, delta: int) {
    && m'.buffers.Keys == m.buffers.Keys
    && forall b :: b in m.buffers ==>
         m'.buffers[b].pending == m.buffers[b].pending + if buffer == Some(b) then delta else 0
  }

  /** A slot takes its references: a retained buffer and a new pending IO. */
  lemma BalanceAdd(m: Mem, w: Work, m': Mem, w': Work, slot: Slot, hold: Hold)
    requires Balanced(m, w) && HoldAt(w, slot) == None && SlotChanged(w, w', slot, Some(hold))
    requires !m'.fault && m.next <= m'.next
    requires CountsMoved(m, m', hold.buffer, 1) && (hold.buffer.Some? ==> hold.buffer.value in m.buffers)
    requires hold.io == None ==> m'.ios == m.ios
    requires hold.io.Some? ==>
               hold.io.value !in m.ios && hold.io.value < m'.next && m'.ios.Keys == m.ios.Keys + {hold.io.value} &&
               (forall io :: io in m.ios ==> m'.ios[io] == m.ios[io]) &&
               m'.ios[hold.io.value].refs == 1 && !m'.ios[hold.io.value].done
    ensures Balanced(m', w')
  {
    forall b | b in m'.buffers
      ensures m'.buffers[b].pending == |BufferHolders(w', b)|
    {
      HoldersChanged(w, w', slot, Some(hold), b);
      BufferHolder(w, slot, b);
    }
    AddKeepsIos(m, w, m', w', slot, hold);
    assert Anchored(m', w') by {
      forall s, b | HoldsBuffer(w', s, b)
        ensures b in m'.buffers
      {
        assert s != slot ==> HoldsBuffer(w, s, b);
      }
      forall s, io | HoldsIo(w', s, io)
        ensures io in m'.ios && m'.ios[io].refs == 1
      {
        assert s != slot ==> HoldsIo(w, s, io);
      }
    }
  }

  lemma AddKeepsIos(m: Mem, w: Work, m': Mem, w': Work, slot: Slot, hold: Hold)
    requires Balanced(m, w) && HoldAt(w, slot) == None && SlotChanged(w, w', slot, Some(hold))
    requires m.next <= m'.next
    requires hold.io == None ==> m'.ios == m.ios
    requires hold.io.Some? ==>
               hold.io.value !in m.ios && hold.io.value < m'.next && m'.ios.Keys == m.ios.Keys + {hold.io.value} &&
               (forall io :: io in m.ios ==> m'.ios[io] == m.ios[io]) &&
               m'.ios[hold.io.value].refs == 1 && !m'.ios[hold.io.value].done
    ensures IosBalanced(m', w')
  {
    forall s, t, io | HoldsIo(w', s, io) && HoldsIo(w', t, io)
      ensures s == t
    {
      assert s != slot ==> HoldsIo(w, s, io);
      assert t != slot ==> HoldsIo(w, t, io);
    }
    forall io | io in m'.ios && m'.ios[io].refs == 1
      ensures exists s :: HoldsIo(w', s, io)
    {
      if hold.io == Some(io) {
        assert HoldsIo(w', slot, io);
      } else {
        var s :| HoldsIo(w, s, io);
        assert s != slot;
        assert HoldsIo(w', s, io);
      }
    }
  }

  /** A slot gives its references back: the buffer count falls, the IO is completed. */
  lemma BalanceDrop(m: Mem, w: Work, m': Mem, w': Work, slot: Slot, hold: Hold)
    requires Balanced(m, w) && HoldAt(w, slot) == Some(hold) && SlotChanged(w, w', slot, None)
    requires !m'.fault && m.next == m'.next && CountsMoved(m, m', hold.buffer, -1)
    requires hold.io == None ==> m'.ios == m.ios
    requires hold.io.Some? ==>
               m'.ios.Keys == m.ios.Keys && hold.io.value in m.ios &&
               (forall io :: io in m.ios && io != hold.io.value ==> m'.ios[io] == m.ios[io]) &&
               m'.ios[hold.io.value].refs == 0 && m'.ios[hold.io.value].done
    ensures Balanced(m', w')
  {
    forall b | b in m'.buffers
      ensures m'.buffers[b].pending == |BufferHolders(w', b)|
    {
      HoldersChanged(w, w', slot, None, b);
      BufferHolder(w, slot, b);
    }
    forall s, b | HoldsBuffer(w', s, b)
      ensures b in m'.buffers
    {
      assert HoldsBuffer(w, s, b);
    }
    forall s, io | HoldsIo(w', s, io)
      ensures s != slot && HoldsIo(w, s, io) && io in m'.ios && m'.ios[io].refs == 1
    {
      assert HoldsIo(w, s, io);
      if hold.io == Some(io) {
        assert HoldsIo(w, slot, io);
      }
    }
    forall io | io in m'.ios && m'.ios[io].refs == 1
      ensures exists s :: HoldsIo(w', s, io)
    {
      var s :| HoldsIo(w, s, io);
      assert HoldsIo(w', s, io);
    }
  }

  /** What holding a slot buys: its buffer is retained and its IO is pending. */
  lemma HeldReferences(m: Mem, w: Work, slot: Slot, hold: Hold)
    requires Balanced(m, w) && HoldAt(w, slot) == Some(hold)
    ensures hold.buffer.Some? ==> hold.buffer.value in m.buffers && m.buffers[hold.buffer.value].pending > 0
    ensures hold.io.Some? ==> hold.io.value in m.ios && m.ios[hold.io.value].refs == 1 && !m.ios[hold.io.value].done
  {
    if hold.buffer.Some? {
      assert HoldsBuffer(w, slot, hold.buffer.value);
      BufferHolder(w, slot, hold.buffer.value);
      assert BufferHolders(w, hold.buffer.value) != {};
    }
    if hold.io.Some? {
      assert HoldsIo(w, slot, hold.io.value);
    }
  }

  /** Nothing but unreferenced buffers and completed IOs comes or goes. */
  predicate Quiescent(m: Mem, m': Mem) {
    && m'.fault == m.fault && m.next <= m'.next
    && (forall b :: b in m'.buffers ==>
          if b in m.buffers then m'.buffers[b].pending == m.buffers[b].pending
          else m'.buffers[b].pending == 0 && b < m'.next)
    && (forall b :: b in m.buffers && b !in m'.buffers ==> m.buffers[b].pending == 0)
    && (forall io :: io in m'.ios ==>
          if io in m.ios then m'.ios[io].refs == m.ios[io].refs && m'.ios[io].done == m.ios[io].done
          else m'.ios[io].refs == 0 && m'.ios[io].done && io < m'.next)
    && (forall io :: io in m.ios && io !in m'.ios ==> m.ios[io].refs == 0)
  }

  lemma BalanceSame(m: Mem, w: Work, m': Mem, w': Work)
    requires Balanced(m, w) && SameHolds(w, w') && Quiescent(m, m')
    ensures Balanced(m', w')
  {
    forall b | b in m'.buffers
      ensures m'.buffers[b].pending == |BufferHolders(w', b)|
    {
      SameHolders(w, w', b);
      if b !in m.buffers {
        NoHolders(m, w, b);
      }
    }
    forall s, b | HoldsBuffer(w', s, b)
      ensures b in m'.buffers
    {
      assert HoldsBuffer(w, s, b);
      HeldReferences(m, w, s, HoldAt(w, s).value);
    }
    forall s, io | HoldsIo(w', s, io)
      ensures HoldsIo(w, s, io) && io in m'.ios && m'.ios[io].refs == 1
    {
      assert HoldsIo(w, s, io);
    }
    forall io | io in m'.ios && m'.ios[io].refs == 1
      ensures exists s :: HoldsIo(w', s, io)
    {
      var s :| HoldsIo(w, s, io);
      assert HoldsIo(w', s, io);
    }
  }

  lemma NoHolders(m: Mem, w: Work, b: nat)
    requires Anchored(m, w) && b !in m.buffers
    ensures BufferHolders(w, b) == {}
  {
    forall s
      ensures s !in BufferHolders(w, b)
    {
      BufferHolder(w, s, b);
    }
  }
}
