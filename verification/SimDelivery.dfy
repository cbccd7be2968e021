/** What a complete collective leaves in memory: every destination holds the output, every IO
    reports it, and no other byte has changed. */
module SimDelivery {
  import opened Common
  import opened SimState
  import opened SimLedger
  import opened SimCollective
  import opened SimCollectiveInv
  import opened SimFifo

  type Slots = seq<Option<CollSlot>>

  predicate Full(slots: Slots) { forall r :: 0 <= r < |slots| ==> slots[r].Some? }

  predicate Apart(a: CollSlot, b: CollSlot, len: nat) {
    a.dst != b.dst || a.offset + len <= b.offset || b.offset + len <= a.offset
  }

  /** No two destinations overlap. */
  predicate Disjoint(slots: Slots, len: nat)
    requires Full(slots)
  {
    forall q, r :: 0 <= q < r < |slots| ==> Apart(slots[q].value, slots[r].value, len)
  }

  predicate InRange(slot: CollSlot, len: nat, b: nat, j: nat) { slot.dst == b && slot.offset <= j < slot.offset + len }

  /** A byte that belongs to none of the first `n` destinations. */
  predicate Outside(slots: Slots, n: nat, len: nat, b: nat, j: nat)
    requires Full(slots) && n <= |slots|
  {
    forall r :: 0 <= r < n ==> !InRange(slots[r].value, len, b, j)
  }

  predicate Holds(m: Mem, slot: CollSlot, out: Bytes) {
    && ValidRange(m, slot.dst, slot.offset, |out|)
    && m.buffers[slot.dst].bytes[slot.offset..slot.offset + |out|] == out
  }

  predicate Untouched(m: Mem, m': Mem, slots: Slots, n: nat, len: nat)
    requires Full(slots) && n <= |slots|
  {
    && SameShape(m, m')
    && forall b, j :: b in m.buffers && 0 <= j < |m.buffers[b].bytes| && Outside(slots, n, len, b, j) ==>
         m'.buffers[b].bytes[j] == m.buffers[b].bytes[j]
  }

  /** The first `n` ranks have their results. */
  predicate Written(m: Mem, m': Mem, slots: Slots, n: nat, out: Bytes)
    requires Full(slots) && n <= |slots|
  {
    && Untouched(m, m', slots, n, |out|)
    && (forall r :: 0 <= r < n ==> Holds(m', slots[r].value, out))
    && (forall r :: 0 <= r < n ==> FinishedWith(m', slots[r].value.io, Ok, |out|, Checksum32(out)))
  }

  /** Storing to one destination leaves the others as they are. */
  lemma StoreOther(m: Mem, slot: CollSlot, other: CollSlot, out: Bytes)
    requires Holds(m, other, out) && ValidRange(m, slot.dst, slot.offset, |out|) && Apart(other, slot, |out|)
    ensures Holds(Store(m, slot.dst, slot.offset, out), other, out)
  {
    var m' := Store(m, slot.dst, slot.offset, out);
    if other.dst == slot.dst {
      var bytes, bytes' := m.buffers[slot.dst].bytes, m'.buffers[slot.dst].bytes;
      assert bytes'[other.offset..other.offset + |out|] == bytes[other.offset..other.offset + |out|];
    }
  }

  lemma StoreUntouched(m: Mem, m1: Mem, slots: Slots, n: nat, out: Bytes)
    requires Full(slots) && n < |slots| && Untouched(m, m1, slots, n, |out|)
    requires ValidRange(m1, slots[n].value.dst, slots[n].value.offset, |out|)
    ensures Untouched(m, Store(m1, slots[n].value.dst, slots[n].value.offset, out), slots, n + 1, |out|)
  {
    var slot := slots[n].value;
    var m' := Store(m1, slot.dst, slot.offset, out);
    StoreKeeps(m1, slot.dst, slot.offset, out);
    ShapeTransitive(m, m1, m');
    forall b, j | b in m.buffers && 0 <= j < |m.buffers[b].bytes| && Outside(slots, n + 1, |out|, b, j)
      ensures m'.buffers[b].bytes[j] == m.buffers[b].bytes[j]
    {
      assert Outside(slots, n, |out|, b, j);
      assert !InRange(slots[n].value, |out|, b, j);
    }
  }

  lemma SettleUntouched(m: Mem, m1: Mem, m2: Mem, slots: Slots, n: nat, len: nat)
    requires Full(slots) && n <= |slots| && Untouched(m, m1, slots, n, len) && SameBytes(m1, m2) && SameShape(m1, m2)
    ensures Untouched(m, m2, slots, n, len)
  {
    ShapeTransitive(m, m1, m2);
  }

  lemma SettleHolds(m1: Mem, m2: Mem, slot: CollSlot, out: Bytes)
    requires Holds(m1, slot, out) && SameBytes(m1, m2)
    ensures Holds(m2, slot, out)
  {
  }

  /** The slots of an entry hold different IOs. */
  lemma DistinctIos(m: Mem, w: Work, k: CollKey, q: nat, r: nat)
    requires IosBalanced(m, w) && k in w.colls && q < |w.colls[k].slots| && r < |w.colls[k].slots| && q != r
    requires w.colls[k].slots[q].Some? && w.colls[k].slots[r].Some?
    ensures w.colls[k].slots[q].value.io != w.colls[k].slots[r].value.io
  {
    assert HoldsIo(w, CollAt(k, q), w.colls[k].slots[q].value.io);
    assert HoldsIo(w, CollAt(k, r), w.colls[k].slots[r].value.io);
  }

  predicate IosDiffer(slots: Slots)
    requires Full(slots)
  {
    forall q, r :: 0 <= q < r < |slots| ==> slots[q].value.io != slots[r].value.io
  }

  /** One rank's completion extends what has been written. */
  lemma SlotWritten(m: Mem, m1: Mem, slots: Slots, n: nat, out: Bytes)
    requires Full(slots) && n < |slots| && Disjoint(slots, |out|) && IosDiffer(slots)
    requires Written(m, m1, slots, n, out)
    requires var slot := slots[n].value;
             && ValidRange(m1, slot.dst, slot.offset, |out|) && m1.buffers[slot.dst].pending > 0
             && slot.io in m1.ios && m1.ios[slot.io].refs == 1
    ensures var slot := slots[n].value;
            var m' := FinishIo(ReleaseBuffer(Store(m1, slot.dst, slot.offset, out), slot.dst), slot.io, Ok, |out|,
                               Checksum32(out));
            Written(m, m', slots, n + 1, out)
  {
    var slot := slots[n].value;
    var stored := Store(m1, slot.dst, slot.offset, out);
    var m' := FinishIo(ReleaseBuffer(stored, slot.dst), slot.io, Ok, |out|, Checksum32(out));
    StoreKeeps(m1, slot.dst, slot.offset, out);
    Settled(stored, slot.dst, slot.io, Ok, |out|, Checksum32(out));
    StoreUntouched(m, m1, slots, n, out);
    SettleUntouched(m, stored, m', slots, n + 1, |out|);
    ResultsWritten(m1, stored, m', slots, n, out);
  }

  lemma ResultsWritten(m1: Mem, stored: Mem, m': Mem, slots: Slots, n: nat, out: Bytes)
    requires Full(slots) && n < |slots| && Disjoint(slots, |out|) && IosDiffer(slots)
    requires forall r :: 0 <= r < n ==> Holds(m1, slots[r].value, out)
    requires forall r :: 0 <= r < n ==> FinishedWith(m1, slots[r].value.io, Ok, |out|, Checksum32(out))
    requires var slot := slots[n].value;
             && ValidRange(m1, slot.dst, slot.offset, |out|) && stored == Store(m1, slot.dst, slot.offset, out)
             && SameBytes(stored, m') && m'.ios == m1.ios[slot.io := Io(true, Ok, |out|, Checksum32(out), 0)]
    ensures forall r :: 0 <= r < n + 1 ==> Holds(m', slots[r].value, out)
    ensures forall r :: 0 <= r < n + 1 ==> FinishedWith(m', slots[r].value.io, Ok, |out|, Checksum32(out))
  {
    var slot := slots[n].value;
    LastWritten(m1, stored, m', slot, out);
    forall r | 0 <= r < n
      ensures Holds(m', slots[r].value, out) && FinishedWith(m', slots[r].value.io, Ok, |out|, Checksum32(out))
    {
      assert Apart(slots[r].value, slots[n].value, |out|) && slots[r].value.io != slots[n].value.io;
      EarlierWritten(m1, stored, m', slot, slots[r].value, out);
    }
  }

  lemma LastWritten(m1: Mem, stored: Mem, m': Mem, slot: CollSlot, out: Bytes)
    requires ValidRange(m1, slot.dst, slot.offset, |out|) && stored == Store(m1, slot.dst, slot.offset, out)
    requires SameBytes(stored, m')
    ensures Holds(m', slot, out)
  {
    assert Holds(stored, slot, out);
    SettleHolds(stored, m', slot, out);
  }

  lemma EarlierWritten(m1: Mem, stored: Mem, m': Mem, slot: CollSlot, other: CollSlot, out: Bytes)
    requires ValidRange(m1, slot.dst, slot.offset, |out|) && stored == Store(m1, slot.dst, slot.offset, out)
    requires SameBytes(stored, m') && m'.ios == m1.ios[slot.io := Io(true, Ok, |out|, Checksum32(out), 0)]
    requires Holds(m1, other, out) && Apart(other, slot, |out|) && other.io != slot.io
    requires FinishedWith(m1, other.io, Ok, |out|, Checksum32(out))
    ensures Holds(m', other, out) && FinishedWith(m', other.io, Ok, |out|, Checksum32(out))
  {
    StoreOther(m1, slot, other, out);
    SettleHolds(stored, m', other, out);
  }

  ghost predicate WrittenTo(c: Core, b: Core, k: CollKey, n: nat, out: Bytes) {
    && CompletedTo(c, b, k, n, |out|) && Full(c.work.colls[k].slots)
    && Written(c.mem, b.mem, c.work.colls[k].slots,
               if n <= |c.work.colls[k].slots| then n else |c.work.colls[k].slots|, out)
  }

  lemma WriteStep(c: Core, b: Core, k: CollKey, n: nat, out: Bytes)
    requires WrittenTo(c, b, k, n, out)
    requires Disjoint(c.work.colls[k].slots, |out|) && IosDiffer(c.work.colls[k].slots)
    ensures WrittenTo(c, CompleteSlot(b, k, n, out), k, n + 1, out)
  {
    CompleteStep(c, b, k, n, out);
    var slots := c.work.colls[k].slots;
    if n < |slots| {
      assert b.work.colls[k].slots[n] == slots[n];
      var slot := slots[n].value;
      HeldReferences(b.mem, b.work, CollAt(k, n), Hold(Some(slot.dst), Some(slot.io)));
      SlotWritten(c.mem, b.mem, slots, n, out);
    }
  }

  lemma RanksWritten(c: Core, k: CollKey, n: nat, out: Bytes)
    requires Settling(c, k) && SlotsFit(c.mem, c.work, k, |out|) && Full(c.work.colls[k].slots)
    requires Disjoint(c.work.colls[k].slots, |out|) && IosDiffer(c.work.colls[k].slots)
    ensures WrittenTo(c, CompleteRanks(c, k, n, out), k, n, out)
  {
    forall b, r: nat | WrittenTo(c, b, k, r, out)
      ensures WrittenTo(c, CompleteSlot(b, k, r, out), k, r + 1, out)
    {
      WriteStep(c, b, k, r, out);
    }
    CompleteRanksKeeps((b: Core, r: nat) => WrittenTo(c, b, k, r, out), c, k, n, out);
  }

  // ---------------------------------------------------------------------------
  // Failing every rank

  predicate FailedIos(m: Mem, slots: Slots, n: nat, status: Status) {
    forall r :: 0 <= r < n && r < |slots| && slots[r].Some? ==> FinishedWith(m, slots[r].value.io, status, 0, 0)
  }

  ghost predicate FailedAll(c: Core, b: Core, k: CollKey, n: nat, status: Status) {
    FailedTo(c, b, k, n) && FailedIos(b.mem, c.work.colls[k].slots, n, status)
  }

  lemma FailIosStep(m1: Mem, slots: Slots, n: nat, status: Status)
    requires FailedIos(m1, slots, n, status) && n < |slots| && slots[n].Some?
    requires forall q, r :: 0 <= q < r < |slots| && slots[q].Some? && slots[r].Some? ==>
             slots[q].value.io != slots[r].value.io
    requires var slot := slots[n].value;
             && slot.dst in m1.buffers && m1.buffers[slot.dst].pending > 0
             && slot.io in m1.ios && m1.ios[slot.io].refs == 1
    ensures var slot := slots[n].value;
            FailedIos(FinishIo(ReleaseBuffer(m1, slot.dst), slot.io, status, 0, 0), slots, n + 1, status)
  {
    Settled(m1, slots[n].value.dst, slots[n].value.io, status, 0, 0);
  }

  lemma FailAllStep(c: Core, b: Core, k: CollKey, n: nat, status: Status)
    requires Balanced(c.mem, c.work) && FailedAll(c, b, k, n, status)
    ensures FailedAll(c, FailSlot(b, k, n, status), k, n + 1, status)
  {
    FailStep(c, b, k, n, status);
    var slots := c.work.colls[k].slots;
    if n < |slots| && slots[n].Some? {
      assert b.work.colls[k].slots[n] == slots[n];
      var slot := slots[n].value;
      HeldReferences(b.mem, b.work, CollAt(k, n), Hold(Some(slot.dst), Some(slot.io)));
      forall q, r | 0 <= q < r < |slots| && slots[q].Some? && slots[r].Some?
        ensures slots[q].value.io != slots[r].value.io
      {
        DistinctIos(c.mem, c.work, k, q, r);
      }
      FailIosStep(b.mem, slots, n, status);
    }
  }

  lemma RanksFailed(c: Core, k: CollKey, n: nat, status: Status)
    requires Settling(c, k)
    ensures FailedAll(c, FailRanks(c, k, n, status), k, n, status)
  {
    forall b, r: nat | FailedAll(c, b, k, r, status)
      ensures FailedAll(c, FailSlot(b, k, r, status), k, r + 1, status)
    {
      FailAllStep(c, b, k, r, status);
    }
    FailRanksKeeps((b: Core, r: nat) => FailedAll(c, b, k, r, status), c, k, n, status);
  }

  // ---------------------------------------------------------------------------
  // The last arrival

  /** What the last arrival leaves behind, given the entry it completed. */
  predicate Outcome(m: Mem, m': Mem, slots: Slots, out: Option<Bytes>)
    requires Full(slots)
  {
    match out
    case None => SameBytes(m, m') && FailedIos(m', slots, |slots|, Unsupported)
    case Some(data) => Disjoint(slots, |data|) ==> Written(m, m', slots, |slots|, data)
  }

  lemma FinishDelivers(f: Reducer, c: Core, k: CollKey)
    requires Settling(c, k) && EntryValid(c.mem, k, c.work.colls[k]) && k.size > 0 && Full(c.work.colls[k].slots)
    ensures var e := c.work.colls[k];
            Outcome(c.mem, FinishColl(f, c, k).mem, e.slots, Output(f, k.kind, e.params, Payloads(e)))
  {
    var e := c.work.colls[k];
    FullPayloads(c.mem, k, e);
    OutputSize(f, k.kind, e.params, Payloads(e));
    match Output(f, k.kind, e.params, Payloads(e))
    case None =>
      RanksFailed(c, k, |e.slots|, Unsupported);
    case Some(out) =>
      EntryFits(c.mem, c.work, k);
      forall q, r | 0 <= q < r < |e.slots|
        ensures e.slots[q].value.io != e.slots[r].value.io
      {
        DistinctIos(c.mem, c.work, k, q, r);
      }
      if Disjoint(e.slots, |out|) {
        RanksWritten(c, k, |e.slots|, out);
      }
  }

  // ---------------------------------------------------------------------------
  // The output, by element and by rank

  lemma SliceLeft(a: Bytes, b: Bytes, lo: nat, hi: nat)
    requires lo <= hi <= |a|
    ensures (a + b)[lo..hi] == a[lo..hi]
  {
  }

  lemma SliceRight(a: Bytes, b: Bytes, lo: nat, hi: nat)
    requires lo == |a| && hi == |a| + |b|
    ensures (a + b)[lo..hi] == b
  {
  }

  lemma Places(i: nat, n: nat, w: nat)
    requires i < n
    ensures i * w <= (i + 1) * w <= n * w && (i + 1) * w == i * w + w
  {
    assert n * w == (i + 1) * w + (n - i - 1) * w;
  }

  /** Element `i` of a reduction is the left fold of element `i` in rank order. */
  lemma {:induction false} ReducedElement(f: Reducer, p: CollParams, payloads: seq<Bytes>, count: nat, i: nat)
    requires |payloads| > 0 && i < count
    ensures var w := Width(p.dtype);
            i * w <= (i + 1) * w <= |Reduced(f, p, payloads, count)| &&
            Reduced(f, p, payloads, count)[i * w..(i + 1) * w] == FoldElement(f, p, payloads, i, |payloads|)
  {
    var w := Width(p.dtype);
    Places(i, count, w);
    var init := Reduced(f, p, payloads, count - 1);
    var last := FoldElement(f, p, payloads, count - 1, |payloads|);
    if i == count - 1 {
      SliceRight(init, last, i * w, (i + 1) * w);
    } else {
      ReducedElement(f, p, payloads, count - 1, i);
      SliceLeft(init, last, i * w, (i + 1) * w);
    }
  }

  /** Rank `r`'s payload is at place `r` of a gather. */
  lemma {:induction false} GatheredRank(payloads: seq<Bytes>, n: nat, size: nat, r: nat)
    requires r < n <= |payloads| && forall q :: 0 <= q < |payloads| ==> |payloads[q]| == size
    ensures r * size <= (r + 1) * size <= |Gathered(payloads, n)|
    ensures Gathered(payloads, n)[r * size..(r + 1) * size] == payloads[r]
  {
    GatheredSize(payloads, n, size);
    GatheredSize(payloads, n - 1, size);
    Places(r, n, size);
    var init := Gathered(payloads, n - 1);
    if r < n - 1 {
      GatheredRank(payloads, n - 1, size, r);
      SliceLeft(init, payloads[n - 1], r * size, (r + 1) * size);
    } else {
      SliceRight(init, payloads[n - 1], r * size, (r + 1) * size);
    }
  }
}
