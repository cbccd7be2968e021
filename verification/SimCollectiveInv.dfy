/** Collective submissions keep the ledger balanced and the collective table valid. */
module SimCollectiveInv {
  import opened Common
  import opened SimState
  import opened SimLedger
  import opened SimCollective

  /** `m'` has the buffers of `m`, each with the same owner, kind and size. */
  predicate SameShape(m: Mem, m': Mem) {
    && m'.buffers.Keys == m.buffers.Keys
    && forall b :: b in m.buffers ==>
         && m'.buffers[b].owner == m.buffers[b].owner
         && m'.buffers[b].kind == m.buffers[b].kind
         && |m'.buffers[b].bytes| == |m.buffers[b].bytes|
  }

  predicate SameBytes(m: Mem, m': Mem) {
    && m'.buffers.Keys == m.buffers.Keys
    && forall b :: b in m.buffers ==> m'.buffers[b].bytes == m.buffers[b].bytes
  }

  predicate OtherWork(w: Work, w': Work) {
    w'.pairs == w.pairs && w'.windows == w.windows && w'.tasks == w.tasks && w'.workers == w.workers
  }

  predicate OtherColls(w: Work, w': Work, k: CollKey) {
    w'.colls - {k} == w.colls - {k}
  }

  predicate CollsValidBut(m: Mem, w: Work, k: CollKey) {
    forall j :: j in w.colls && j != k ==> EntryValid(m, j, w.colls[j]) && w.colls[j].arrivals < j.size
  }

  predicate SlotsFit(m: Mem, w: Work, k: CollKey, bytes: nat) {
    k in w.colls &&
    forall r :: 0 <= r < |w.colls[k].slots| && w.colls[k].slots[r].Some? ==>
      ValidRange(m, w.colls[k].slots[r].value.dst, w.colls[k].slots[r].value.offset, bytes)
  }

  lemma ShapeKeepsRanges(m: Mem, m': Mem, b: nat, offset: nat, len: nat)
    requires SameShape(m, m')
    ensures ValidRange(m', b, offset, len) == ValidRange(m, b, offset, len)
  {
  }

  lemma ShapeKeepsColls(m: Mem, w: Work, m': Mem, w': Work, k: CollKey)
    requires CollsValidBut(m, w, k) && SameShape(m, m') && OtherColls(w, w', k)
    ensures CollsValidBut(m', w', k)
  {
    forall j | j in w'.colls && j != k
      ensures EntryValid(m', j, w'.colls[j]) && w'.colls[j].arrivals < j.size
    {
      assert j in w'.colls - {k} && (w'.colls - {k})[j] == w'.colls[j];
      assert j in w.colls && w.colls[j] == w'.colls[j];
      forall r | 0 <= r < |w.colls[j].slots| && w.colls[j].slots[r].Some?
        ensures SlotValid(m', w.colls[j].params, w.colls[j].slots[r].value)
      {
        assert SlotValid(m, w.colls[j].params, w.colls[j].slots[r].value);
      }
    }
  }

  lemma VacateChanges(w: Work, k: CollKey, r: nat)
    requires Filled(w, k, r)
    ensures SlotChanged(w, Vacate(w, k, r), CollAt(k, r), None)
    ensures OtherWork(w, Vacate(w, k, r)) && OtherColls(w, Vacate(w, k, r), k)
  {
  }

  /** What releasing a buffer and finishing an IO do to the memory. */
  lemma Settled(stored: Mem, b: nat, io: nat, status: Status, bytes: nat, checksum: bv32)
    requires b in stored.buffers && stored.buffers[b].pending > 0 && io in stored.ios && stored.ios[io].refs == 1
    ensures var m' := FinishIo(ReleaseBuffer(stored, b), io, status, bytes, checksum);
            && CountsMoved(stored, m', Some(b), -1) && m'.fault == stored.fault
            && SameShape(stored, m') && SameBytes(stored, m') && m'.next == stored.next
            && m'.ios == stored.ios[io := Io(true, status, bytes, checksum, 0)]
  {
  }

  /** Releasing the buffer and finishing the IO of a held slot moves the balance exactly
      as dropping the slot does. */
  lemma SettleSlot(m: Mem, w: Work, k: CollKey, r: nat, stored: Mem, status: Status, bytes: nat, checksum: bv32)
    requires Balanced(m, w) && Filled(w, k, r)
    requires stored.ios == m.ios && stored.next == m.next && stored.fault == m.fault && CountsMoved(m, stored, None, 0)
    ensures var slot := w.colls[k].slots[r].value;
            var m' := FinishIo(ReleaseBuffer(stored, slot.dst), slot.io, status, bytes, checksum);
            && Balanced(m', Vacate(w, k, r))
            && SameShape(stored, m') && SameBytes(stored, m') && m'.next == m.next
            && m'.ios == m.ios[slot.io := Io(true, status, bytes, checksum, 0)]
  {
    var slot := w.colls[k].slots[r].value;
    var hold := Hold(Some(slot.dst), Some(slot.io));
    HeldReferences(m, w, CollAt(k, r), hold);
    VacateChanges(w, k, r);
    var m' := FinishIo(ReleaseBuffer(stored, slot.dst), slot.io, status, bytes, checksum);
    Settled(stored, slot.dst, slot.io, status, bytes, checksum);
    BalanceDrop(m, w, m', Vacate(w, k, r), CollAt(k, r), hold);
  }

  /** The state while the slots of one entry are being settled. */
  ghost predicate Settling(c: Core, k: CollKey) {
    Balanced(c.mem, c.work) && CollsValidBut(c.mem, c.work, k) && k in c.work.colls
  }

  /** What settling slots of one entry leaves alone. */
  predicate Around(c: Core, c': Core, k: CollKey) {
    && SameShape(c.mem, c'.mem) && c'.mem.next == c.mem.next
    && OtherWork(c.work, c'.work) && OtherColls(c.work, c'.work, k)
    && k in c.work.colls && k in c'.work.colls
    && |c'.work.colls[k].slots| == |c.work.colls[k].slots|
  }

  lemma BytesTransitive(a: Mem, b: Mem, c: Mem)
    requires SameBytes(a, b) && SameBytes(b, c)
    ensures SameBytes(a, c)
  {
  }

  lemma AroundTransitive(a: Core, b: Core, c: Core, k: CollKey)
    requires Around(a, b, k) && Around(b, c, k)
    ensures Around(a, c, k)
  {
  }

  lemma FailSlotSettles(c: Core, k: CollKey, r: nat, status: Status)
    requires Settling(c, k)
    ensures var c' := FailSlot(c, k, r, status);
            Settling(c', k) && Around(c, c', k) && SameBytes(c.mem, c'.mem)
  {
    if Filled(c.work, k, r) {
      var c' := FailSlot(c, k, r, status);
      SettleSlot(c.mem, c.work, k, r, c.mem, status, 0, 0);
      VacateChanges(c.work, k, r);
      ShapeKeepsColls(c.mem, c.work, c'.mem, c'.work, k);
    }
  }

  lemma StoreKeeps(m: Mem, b: nat, offset: nat, data: Bytes)
    requires ValidRange(m, b, offset, |data|)
    ensures var m' := Store(m, b, offset, data);
            m'.ios == m.ios && m'.next == m.next && m'.fault == m.fault && CountsMoved(m, m', None, 0) &&
              SameShape(m, m')
  {
  }

  lemma ShapeTransitive(a: Mem, b: Mem, c: Mem)
    requires SameShape(a, b) && SameShape(b, c)
    ensures SameShape(a, c)
  {
  }

  lemma VacatedFits(m: Mem, w: Work, m': Mem, k: CollKey, r: nat, bytes: nat)
    requires SlotsFit(m, w, k, bytes) && SameShape(m, m') && Filled(w, k, r)
    ensures SlotsFit(m', Vacate(w, k, r), k, bytes)
  {
    var slots, slots' := w.colls[k].slots, Vacate(w, k, r).colls[k].slots;
    forall q | 0 <= q < |slots'| && slots'[q].Some?
      ensures ValidRange(m', slots'[q].value.dst, slots'[q].value.offset, bytes)
    {
      assert slots[q] == slots'[q];
      ShapeKeepsRanges(m, m', slots[q].value.dst, slots[q].value.offset, bytes);
    }
  }

  lemma CompleteSlotSettles(c: Core, k: CollKey, r: nat, out: Bytes)
    requires Settling(c, k) && SlotsFit(c.mem, c.work, k, |out|)
    ensures var c' := CompleteSlot(c, k, r, out);
            Settling(c', k) && Around(c, c', k) && SlotsFit(c'.mem, c'.work, k, |out|)
  {
    if Filled(c.work, k, r) {
      var slot := c.work.colls[k].slots[r].value;
      var c' := CompleteSlot(c, k, r, out);
      StoreKeeps(c.mem, slot.dst, slot.offset, out);
      var stored := Store(c.mem, slot.dst, slot.offset, out);
      SettleSlot(c.mem, c.work, k, r, stored, Ok, |out|, Checksum32(out));
      ShapeTransitive(c.mem, stored, c'.mem);
      VacateChanges(c.work, k, r);
      ShapeKeepsColls(c.mem, c.work, c'.mem, c'.work, k);
      VacatedFits(c.mem, c.work, c'.mem, k, r, |out|);
    }
  }

  /** Slots below `n` are empty, the others are as they were. */
  predicate EmptiedTo(c: Core, c': Core, k: CollKey, n: nat) {
    k in c.work.colls && k in c'.work.colls && |c'.work.colls[k].slots| == |c.work.colls[k].slots| &&
    forall r :: 0 <= r < |c.work.colls[k].slots| ==>
      c'.work.colls[k].slots[r] == if r < n then None else c.work.colls[k].slots[r]
  }

  lemma FailSlotEmpties(c: Core, b: Core, k: CollKey, n: nat, status: Status)
    requires EmptiedTo(c, b, k, n)
    ensures EmptiedTo(c, FailSlot(b, k, n, status), k, n + 1)
  {
  }

  lemma CompleteSlotEmpties(c: Core, b: Core, k: CollKey, n: nat, out: Bytes)
    requires EmptiedTo(c, b, k, n)
    ensures EmptiedTo(c, CompleteSlot(b, k, n, out), k, n + 1)
  {
  }

  /** Failing rank after rank keeps whatever each single step keeps. */
  lemma {:induction false} FailRanksKeeps(keeps: (Core, nat) -> bool, c: Core, k: CollKey, n: nat, status: Status)
    requires keeps(c, 0)
    requires forall b, r: nat :: keeps(b, r) ==> keeps(FailSlot(b, k, r, status), r + 1)
    ensures keeps(FailRanks(c, k, n, status), n)
  {
    if n > 0 {
      FailRanksKeeps(keeps, c, k, n - 1, status);
    }
  }

  lemma {:induction false} CompleteRanksKeeps(keeps: (Core, nat) -> bool, c: Core, k: CollKey, n: nat, out: Bytes)
    requires keeps(c, 0)
    requires forall b, r: nat :: keeps(b, r) ==> keeps(CompleteSlot(b, k, r, out), r + 1)
    ensures keeps(CompleteRanks(c, k, n, out), n)
  {
    if n > 0 {
      CompleteRanksKeeps(keeps, c, k, n - 1, out);
    }
  }

  /** The slots below `n` have been failed. */
  ghost predicate FailedTo(c: Core, b: Core, k: CollKey, n: nat) {
    Settling(b, k) && Around(c, b, k) && SameBytes(c.mem, b.mem) && EmptiedTo(c, b, k, n)
  }

  lemma FailStep(c: Core, b: Core, k: CollKey, n: nat, status: Status)
    requires FailedTo(c, b, k, n)
    ensures FailedTo(c, FailSlot(b, k, n, status), k, n + 1)
  {
    var c' := FailSlot(b, k, n, status);
    FailSlotSettles(b, k, n, status);
    FailSlotEmpties(c, b, k, n, status);
    AroundTransitive(c, b, c', k);
    BytesTransitive(c.mem, b.mem, c'.mem);
  }

  lemma FailRanksSettles(c: Core, k: CollKey, n: nat, status: Status)
    requires Settling(c, k)
    ensures FailedTo(c, FailRanks(c, k, n, status), k, n)
  {
    forall b, r: nat | FailedTo(c, b, k, r)
      ensures FailedTo(c, FailSlot(b, k, r, status), k, r + 1)
    {
      FailStep(c, b, k, r, status);
    }
    FailRanksKeeps((b: Core, r: nat) => FailedTo(c, b, k, r), c, k, n, status);
  }

  /** The slots below `n` have been completed; the others are still fit to be. */
  ghost predicate CompletedTo(c: Core, b: Core, k: CollKey, n: nat, bytes: nat) {
    Settling(b, k) && Around(c, b, k) && SlotsFit(b.mem, b.work, k, bytes) && EmptiedTo(c, b, k, n)
  }

  lemma CompleteStep(c: Core, b: Core, k: CollKey, n: nat, out: Bytes)
    requires CompletedTo(c, b, k, n, |out|)
    ensures CompletedTo(c, CompleteSlot(b, k, n, out), k, n + 1, |out|)
  {
    CompleteSlotSettles(b, k, n, out);
    CompleteSlotEmpties(c, b, k, n, out);
    AroundTransitive(c, b, CompleteSlot(b, k, n, out), k);
  }

  lemma CompleteRanksSettles(c: Core, k: CollKey, n: nat, out: Bytes)
    requires Settling(c, k) && SlotsFit(c.mem, c.work, k, |out|)
    ensures CompletedTo(c, CompleteRanks(c, k, n, out), k, n, |out|)
  {
    forall b, r: nat | CompletedTo(c, b, k, r, |out|)
      ensures CompletedTo(c, CompleteSlot(b, k, r, out), k, r + 1, |out|)
    {
      CompleteStep(c, b, k, r, out);
    }
    CompleteRanksKeeps((b: Core, r: nat) => CompletedTo(c, b, k, r, |out|), c, k, n, out);
  }

  /** Dropping an entry whose slots are all empty changes no references. */
  lemma EraseSettles(c: Core, k: CollKey)
    requires Balanced(c.mem, c.work) && CollsValidBut(c.mem, c.work, k)
    requires forall r :: !Filled(c.work, k, r)
    ensures var c' := EraseColl(c, k); Balanced(c'.mem, c'.work) && CollsValid(c'.mem, c'.work)
  {
    var c' := EraseColl(c, k);
    forall s
      ensures HoldAt(c'.work, s) == HoldAt(c.work, s)
    {
      if s.CollAt? && s.coll == k {
        assert !Filled(c.work, k, s.rank);
      }
    }
    BalanceSame(c.mem, c.work, c'.mem, c'.work);
  }

  /** What resolving one entry leaves behind. */
  predicate Resolved(c: Core, c': Core, k: CollKey) {
    && SameShape(c.mem, c'.mem) && c'.mem.next == c.mem.next
    && OtherWork(c.work, c'.work) && c'.work.colls == c.work.colls - {k}
  }

  lemma EmptiedNotFilled(c: Core, c': Core, k: CollKey)
    requires k in c.work.colls && EmptiedTo(c, c', k, |c.work.colls[k].slots|)
    ensures forall r :: !Filled(c'.work, k, r)
  {
  }

  lemma AroundErased(c: Core, b: Core, k: CollKey)
    requires Around(c, b, k)
    ensures Resolved(c, EraseColl(b, k), k)
  {
  }

  lemma FailCollResolves(c: Core, k: CollKey, status: Status)
    requires Balanced(c.mem, c.work) && CollsValidBut(c.mem, c.work, k)
    ensures var c' := FailColl(c, k, status);
            && Balanced(c'.mem, c'.work) && CollsValid(c'.mem, c'.work)
            && Resolved(c, c', k) && SameBytes(c.mem, c'.mem)
  {
    if k in c.work.colls {
      var n := |c.work.colls[k].slots|;
      var failed := FailRanks(c, k, n, status);
      FailRanksSettles(c, k, n, status);
      EmptiedNotFilled(c, failed, k);
      EraseSettles(failed, k);
      AroundErased(c, failed, k);
    } else {
      assert c.work.colls - {k} == c.work.colls;
    }
  }

  lemma FullPayloads(m: Mem, k: CollKey, e: PendingColl)
    requires EntryValid(m, k, e) && forall r :: 0 <= r < |e.slots| ==> e.slots[r].Some?
    ensures forall r :: 0 <= r < |e.slots| ==> |Payloads(e)[r]| == e.params.inBytes
  {
    forall r | 0 <= r < |e.slots|
      ensures |Payloads(e)[r]| == e.params.inBytes
    {
      assert SlotValid(m, e.params, e.slots[r].value);
    }
  }

  lemma EntryFits(m: Mem, w: Work, k: CollKey)
    requires k in w.colls && EntryValid(m, k, w.colls[k])
    ensures SlotsFit(m, w, k, w.colls[k].params.outBytes)
  {
    var e := w.colls[k];
    forall r | 0 <= r < |e.slots| && e.slots[r].Some?
      ensures ValidRange(m, e.slots[r].value.dst, e.slots[r].value.offset, e.params.outBytes)
    {
      assert SlotValid(m, e.params, e.slots[r].value);
    }
  }

  lemma CompleteCollResolves(c: Core, k: CollKey, out: Bytes)
    requires Settling(c, k) && SlotsFit(c.mem, c.work, k, |out|)
    ensures var c' := EraseColl(CompleteRanks(c, k, |c.work.colls[k].slots|, out), k);
            Balanced(c'.mem, c'.work) && CollsValid(c'.mem, c'.work) && Resolved(c, c', k)
  {
    var n := |c.work.colls[k].slots|;
    var done := CompleteRanks(c, k, n, out);
    CompleteRanksSettles(c, k, n, out);
    EmptiedNotFilled(c, done, k);
    EraseSettles(done, k);
    AroundErased(c, done, k);
  }

  lemma FinishCollResolves(f: Reducer, c: Core, k: CollKey)
    requires Settling(c, k) && EntryValid(c.mem, k, c.work.colls[k]) && k.size > 0
    requires forall r :: 0 <= r < k.size ==> c.work.colls[k].slots[r].Some?
    ensures var c' := FinishColl(f, c, k);
            Balanced(c'.mem, c'.work) && CollsValid(c'.mem, c'.work) && Resolved(c, c', k)
  {
    var e := c.work.colls[k];
    FullPayloads(c.mem, k, e);
    OutputSize(f, k.kind, e.params, Payloads(e));
    match Output(f, k.kind, e.params, Payloads(e))
    case None => FailCollResolves(c, k, Unsupported);
    case Some(out) =>
      EntryFits(c.mem, c.work, k);
      CompleteCollResolves(c, k, out);
  }
}
