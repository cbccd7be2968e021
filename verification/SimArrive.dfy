/** A collective submission reaching its table keeps the ledger balanced and the table valid. */
module SimArrive {
  import opened Common
  import opened SimState
  import opened SimLedger
  import opened SimCollective
  import opened SimCollectiveInv

  lemma {:induction false} FilledBound(slots: seq<Option<CollSlot>>)
    ensures CountFilled(slots) <= |slots|
    ensures CountFilled(slots) == |slots| <==> forall r :: 0 <= r < |slots| ==> slots[r].Some?
  {
    if slots != [] {
      var init := slots[..|slots| - 1];
      FilledBound(init);
      if forall r :: 0 <= r < |init| ==> init[r].Some? {
        assert forall r :: 0 <= r < |slots| - 1 ==> slots[r] == init[r];
      } else {
        var r :| 0 <= r < |init| && !init[r].Some?;
        assert !slots[r].Some?;
      }
    }
  }

  lemma {:induction false} FillOne(slots: seq<Option<CollSlot>>, r: nat, slot: CollSlot)
    requires r < |slots| && slots[r] == None
    ensures CountFilled(slots[r := Some(slot)]) == CountFilled(slots) + 1
  {
    var slots' := slots[r := Some(slot)];
    var n := |slots| - 1;
    if r == n {
      assert slots'[..n] == slots[..n];
    } else {
      FillOne(slots[..n], r, slot);
      assert slots'[..n] == slots[..n][r := Some(slot)];
    }
  }

  lemma {:induction false} NoneFilled(n: nat)
    ensures CountFilled(seq(n, i => None)) == 0
  {
    if n > 0 {
      NoneFilled(n - 1);
      assert seq<Option<CollSlot>>(n, i => None)[..n - 1] == seq(n - 1, i => None);
    }
  }

  lemma EntryOrValid(m: Mem, w: Work, k: CollKey, p: CollParams)
    requires CollsValid(m, w) && ParamsValid(k.kind, k.size, p) && k.size > 0
    ensures EntryValid(m, k, EntryOr(w, k, p)) && EntryOr(w, k, p).arrivals < k.size
  {
    NoneFilled(k.size);
  }

  /** The entry after rank `rank` has arrived. */
  function Joined(w: Work, k: CollKey, p: CollParams, rank: nat, slot: CollSlot): Work
    requires rank < |EntryOr(w, k, p).slots|
  {
    var e := EntryOr(w, k, p);
    w.(colls := w.colls[k := PendingColl(p, e.slots[rank := Some(slot)], e.arrivals + 1)])
  }

  lemma JoinedChanges(w: Work, k: CollKey, p: CollParams, rank: nat, slot: CollSlot)
    requires rank < |EntryOr(w, k, p).slots| && EntryOr(w, k, p).slots[rank] == None
    ensures HoldAt(w, CollAt(k, rank)) == None
    ensures SlotChanged(w, Joined(w, k, p, rank, slot), CollAt(k, rank), Some(Hold(Some(slot.dst), Some(slot.io))))
    ensures OtherWork(w, Joined(w, k, p, rank, slot)) && OtherColls(w, Joined(w, k, p, rank, slot), k)
  {
    var w' := Joined(w, k, p, rank, slot);
    var e := EntryOr(w, k, p);
    forall s
      ensures HoldAt(w', s) == if s == CollAt(k, rank) then Some(Hold(Some(slot.dst), Some(slot.io))) else HoldAt(w, s)
    {
      if s.CollAt? && s.coll == k && s.rank != rank {
        assert s.rank < |e.slots| ==> w'.colls[k].slots[s.rank] == e.slots[s.rank];
      }
    }
  }

  /** Memory after the submission has made its IO and retained its destination. */
  function Booked(m: Mem, dst: nat): Mem { RetainBuffer(NewIo(m, PendingIo()), dst) }

  lemma BookedKeeps(m: Mem, dst: nat)
    requires dst in m.buffers
    ensures var m' := Booked(m, dst);
            && SameShape(m, m') && SameBytes(m, m') && m'.fault == m.fault && m'.next == m.next + 1
            && CountsMoved(m, m', Some(dst), 1) && m'.ios == m.ios[m.next := PendingIo()]
  {
  }

  lemma JoinBalances(m: Mem, w: Work, k: CollKey, p: CollParams, rank: nat, slot: CollSlot)
    requires Balanced(m, w) && slot.dst in m.buffers && slot.io == m.next
    requires rank < |EntryOr(w, k, p).slots| && EntryOr(w, k, p).slots[rank] == None
    ensures Balanced(Booked(m, slot.dst), Joined(w, k, p, rank, slot))
  {
    JoinedChanges(w, k, p, rank, slot);
    BookedKeeps(m, slot.dst);
    BalanceAdd(m, w, Booked(m, slot.dst), Joined(w, k, p, rank, slot), CollAt(k, rank),
               Hold(Some(slot.dst), Some(slot.io)));
  }

  lemma JoinedEntry(m: Mem, m': Mem, k: CollKey, e: PendingColl, rank: nat, slot: CollSlot)
    requires EntryValid(m, k, e) && rank < |e.slots| && e.slots[rank] == None
    requires SameShape(m, m') && SlotValid(m', e.params, slot)
    ensures EntryValid(m', k, PendingColl(e.params, e.slots[rank := Some(slot)], e.arrivals + 1))
  {
    FillOne(e.slots, rank, slot);
    var slots' := e.slots[rank := Some(slot)];
    forall r | 0 <= r < |slots'| && slots'[r].Some?
      ensures SlotValid(m', e.params, slots'[r].value)
    {
      if r != rank {
        assert slots'[r] == e.slots[r];
        assert SlotValid(m, e.params, e.slots[r].value);
      }
    }
  }

  /** What a submission must have checked before it reaches the table. */
  predicate ArrivalOk(m: Mem, k: CollKey, p: CollParams, rank: nat, payload: Bytes, dst: nat, offset: nat) {
    && |payload| == p.inBytes && ParamsValid(k.kind, k.size, p) && rank < k.size
    && ValidRange(m, dst, offset, p.outBytes)
  }

  lemma DoneIoKeeps(m: Mem, w: Work, status: Status)
    requires Balanced(m, w)
    ensures Balanced(NewIo(m, DoneIo(status)), w)
    ensures SameShape(m, NewIo(m, DoneIo(status))) && SameBytes(m, NewIo(m, DoneIo(status)))
  {
    BalanceSame(m, w, NewIo(m, DoneIo(status)), w);
  }

  lemma RejectKeeps(c: Core, k: CollKey)
    requires Balanced(c.mem, c.work) && CollsValid(c.mem, c.work)
    ensures var failed := FailColl(c, k, InvalidArgument);
            var m' := NewIo(failed.mem, DoneIo(InvalidArgument));
            && Balanced(m', failed.work) && CollsValid(m', failed.work)
            && SameShape(c.mem, m') && SameBytes(c.mem, m') && m'.next == c.mem.next + 1
            && OtherWork(c.work, failed.work) && failed.work.colls == c.work.colls - {k}
  {
    var failed := FailColl(c, k, InvalidArgument);
    FailCollResolves(c, k, InvalidArgument);
    DoneIoKeeps(failed.mem, failed.work, InvalidArgument);
    AllCollsShape(failed.mem, failed.work, NewIo(failed.mem, DoneIo(InvalidArgument)), failed.work);
  }

  lemma AllCollsShape(m: Mem, w: Work, m': Mem, w': Work)
    requires CollsValid(m, w) && SameShape(m, m') && w'.colls == w.colls
    ensures CollsValid(m', w')
  {
    forall k | k in w'.colls
      ensures EntryValid(m', k, w'.colls[k]) && w'.colls[k].arrivals < k.size
    {
      EntryShape(m, m', k, w.colls[k]);
    }
  }

  lemma EntryShape(m: Mem, m': Mem, k: CollKey, e: PendingColl)
    requires EntryValid(m, k, e) && SameShape(m, m')
    ensures EntryValid(m', k, e)
  {
    forall r | 0 <= r < |e.slots| && e.slots[r].Some?
      ensures SlotValid(m', e.params, e.slots[r].value)
    {
      assert SlotValid(m, e.params, e.slots[r].value);
    }
  }

  lemma JoinKeeps(c: Core, k: CollKey, p: CollParams, rank: nat, slot: CollSlot)
    requires Balanced(c.mem, c.work) && CollsValid(c.mem, c.work) && slot.io == c.mem.next
    requires ArrivalOk(c.mem, k, p, rank, slot.payload, slot.dst, slot.offset)
    requires EntryOr(c.work, k, p).params == p
    requires rank < |EntryOr(c.work, k, p).slots| && EntryOr(c.work, k, p).slots[rank] == None
    ensures var m', w' := Booked(c.mem, slot.dst), Joined(c.work, k, p, rank, slot);
            Settling(Core(m', w'), k) && EntryValid(m', k, w'.colls[k]) && w'.colls[k].arrivals <= k.size
  {
    JoinBalances(c.mem, c.work, k, p, rank, slot);
    BookedKeeps(c.mem, slot.dst);
    JoinedChanges(c.work, k, p, rank, slot);
    var m', w' := Booked(c.mem, slot.dst), Joined(c.work, k, p, rank, slot);
    ShapeKeepsColls(c.mem, c.work, m', w', k);
    EntryOrValid(c.mem, c.work, k, p);
    JoinedEntry(c.mem, m', k, EntryOr(c.work, k, p), rank, slot);
  }

  lemma OneValid(m: Mem, w: Work, k: CollKey)
    requires CollsValidBut(m, w, k) && k in w.colls && EntryValid(m, k, w.colls[k]) && w.colls[k].arrivals < k.size
    ensures CollsValid(m, w)
  {
  }

  /** What a submission to entry `k` keeps. */
  ghost predicate ArrivalKept(c: Core, c': Core, k: CollKey) {
    && Balanced(c'.mem, c'.work) && CollsValid(c'.mem, c'.work)
    && SameShape(c.mem, c'.mem) && c'.mem.next == c.mem.next + 1
    && OtherWork(c.work, c'.work) && OtherColls(c.work, c'.work, k)
  }

  lemma LastArrivalKeeps(f: Reducer, c: Core, joined: Core, k: CollKey)
    requires SameShape(c.mem, joined.mem) && joined.mem.next == c.mem.next + 1
    requires OtherWork(c.work, joined.work) && OtherColls(c.work, joined.work, k)
    requires Settling(joined, k) && EntryValid(joined.mem, k, joined.work.colls[k])
    requires joined.work.colls[k].arrivals == k.size > 0
    ensures ArrivalKept(c, FinishColl(f, joined, k), k)
  {
    FilledBound(joined.work.colls[k].slots);
    FinishCollResolves(f, joined, k);
    FinishFrame(c, joined, FinishColl(f, joined, k), k);
  }

  lemma JoinArrives(f: Reducer, c: Core, k: CollKey, p: CollParams, rank: nat, slot: CollSlot)
    requires Balanced(c.mem, c.work) && CollsValid(c.mem, c.work) && slot.io == c.mem.next
    requires ArrivalOk(c.mem, k, p, rank, slot.payload, slot.dst, slot.offset)
    requires EntryOr(c.work, k, p).params == p
    requires rank < |EntryOr(c.work, k, p).slots| && EntryOr(c.work, k, p).slots[rank] == None
    ensures var joined := Core(Booked(c.mem, slot.dst), Joined(c.work, k, p, rank, slot));
            ArrivalKept(c, if joined.work.colls[k].arrivals == k.size then FinishColl(f, joined, k) else joined, k)
  {
    JoinKeeps(c, k, p, rank, slot);
    BookedKeeps(c.mem, slot.dst);
    JoinedChanges(c.work, k, p, rank, slot);
    var joined := Core(Booked(c.mem, slot.dst), Joined(c.work, k, p, rank, slot));
    if joined.work.colls[k].arrivals == k.size {
      LastArrivalKeeps(f, c, joined, k);
    } else {
      OneValid(joined.mem, joined.work, k);
    }
  }

  /** The invariant step for collectives. */
  lemma ArriveKeeps(f: Reducer, c: Core, k: CollKey, p: CollParams, rank: nat, payload: Bytes, dst: nat, offset: nat)
    requires Balanced(c.mem, c.work) && CollsValid(c.mem, c.work)
    requires ArrivalOk(c.mem, k, p, rank, payload, dst, offset)
    ensures ArrivalKept(c, Arrive(f, c, k, p, rank, payload, dst, offset), k)
  {
    var e := EntryOr(c.work, k, p);
    if e.params != p || rank >= |e.slots| || e.slots[rank].Some? {
      RejectKeeps(c, k);
    } else {
      JoinArrives(f, c, k, p, rank, CollSlot(payload, dst, offset, c.mem.next));
    }
  }

  lemma FinishFrame(c: Core, joined: Core, c': Core, k: CollKey)
    requires SameShape(c.mem, joined.mem) && OtherWork(c.work, joined.work) && OtherColls(c.work, joined.work, k)
    requires Resolved(joined, c', k)
    ensures SameShape(c.mem, c'.mem) && OtherWork(c.work, c'.work) && OtherColls(c.work, c'.work, k)
  {
    assert c'.work.colls - {k} == joined.work.colls - {k};
  }
}
