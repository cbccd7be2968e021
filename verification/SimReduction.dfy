/** What a collective computes, byte by byte and without the functions that compute it: an
    all-reduce is the chain of operator applications over the ranks' own bytes, an all-gather
    puts every rank's bytes at its place. First for one entry, then for every round of a run. */
module SimReduction {
  import opened Common
  import opened SimState
  import opened SimLedger
  import opened SimCollective
  import opened SimCollectiveInv
  import opened SimArrive
  import opened SimEngine
  import opened SimEngineInv
  import opened SimFifo
  import opened SimDelivery
  import opened SimMatching

  predicate Sized(p: CollParams, payloads: seq<Bytes>) {
    forall r :: 0 <= r < |payloads| ==> |payloads[r]| == p.count * Width(p.dtype)
  }

  /** The accumulator after each rank: element `i` of rank 0 first, then every further rank's
      own element applied to it from the right. */
  predicate Accumulates(f: Reducer, p: CollParams, payloads: seq<Bytes>, i: nat, acc: seq<Bytes>)
    requires Sized(p, payloads) && i < p.count
  {
    var w := Width(p.dtype);
    Places(i, p.count, w);
    && |acc| == |payloads| > 0 && acc[0] == payloads[0][i * w..(i + 1) * w]
    && forall r :: 0 < r < |acc| ==> acc[r] == Fit(f(p.dtype, p.op, acc[r - 1], payloads[r][i * w..(i + 1) * w]), w)
  }

  lemma {:induction false} ChainIsFold(f: Reducer, p: CollParams, payloads: seq<Bytes>, i: nat, acc: seq<Bytes>, n: nat)
    requires Sized(p, payloads) && i < p.count && Accumulates(f, p, payloads, i, acc) && 0 < n <= |payloads|
    ensures acc[n - 1] == FoldElement(f, p, payloads, i, n)
  {
    var w := Width(p.dtype);
    Places(i, p.count, w);
    assert Element(payloads[n - 1], i, w) == payloads[n - 1][i * w..(i + 1) * w];
    if n > 1 {
      ChainIsFold(f, p, payloads, i, acc, n - 1);
      assert acc[n - 1] == Fit(f(p.dtype, p.op, acc[n - 2], payloads[n - 1][i * w..(i + 1) * w]), w);
    }
  }

  predicate HalfPrecision(t: DataType) { t == Fp16 || t == Bfp16 }

  /** Element `i` of an all-reduce is the end of its chain; one rank alone keeps its bytes. */
  lemma ReducesByChain(f: Reducer, p: CollParams, payloads: seq<Bytes>, i: nat, acc: seq<Bytes>)
    requires Sized(p, payloads) && i < p.count && Accumulates(f, p, payloads, i, acc)
    requires |payloads| == 1 || !(HalfPrecision(p.dtype) || p.dtype == UnknownType)
    ensures var out := Output(f, AllReduce, p, payloads);
            var w := Width(p.dtype);
            out.Some? && |out.value| == p.count * w && 0 <= i * w <= (i + 1) * w <= p.count * w &&
            out.value[i * w..(i + 1) * w] == acc[|acc| - 1]
  {
    Places(i, p.count, Width(p.dtype));
    if |payloads| > 1 {
      ReducedElement(f, p, payloads, p.count, i);
      ChainIsFold(f, p, payloads, i, acc, |payloads|);
    }
  }

  /** Rank `r`'s bytes are the r-th part of an all-gather. */
  lemma GathersByRank(f: Reducer, p: CollParams, payloads: seq<Bytes>, r: nat)
    requires Sized(p, payloads) && r < |payloads|
    ensures var out := Output(f, AllGather, p, payloads);
            var size := p.count * Width(p.dtype);
            out.Some? && |out.value| == size * |payloads| && 0 <= r * size <= (r + 1) * size <= size * |payloads| &&
            out.value[r * size..(r + 1) * size] == payloads[r]
  {
    var size := p.count * Width(p.dtype);
    GatheredRank(payloads, |payloads|, size, r);
    GatheredSize(payloads, |payloads|, size);
  }

  /** Only an all-reduce of several ranks can be unsupported, and only for these types. */
  lemma UnsupportedExactly(f: Reducer, kind: CollKind, p: CollParams, payloads: seq<Bytes>)
    requires |payloads| > 0
    ensures Output(f, kind, p, payloads) == None <==>
            kind == AllReduce && |payloads| > 1 && (HalfPrecision(p.dtype) || p.dtype == UnknownType)
  {
  }

  /** A submission that does not fit its entry, because it comes with other parameters or from
      a rank that is already there, fails: no byte moves, every IO of the entry and the
      submission's own fail with invalid argument, and the entry is gone. */
  lemma MisfitFailsAll(
    f: Reducer, c: Core, k: CollKey, p: CollParams, rank: nat, payload: Bytes, dst: nat, offset: nat)
    requires Balanced(c.mem, c.work) && CollsValid(c.mem, c.work) && k in c.work.colls
    requires c.work.colls[k].params != p || (rank < |c.work.colls[k].slots| && c.work.colls[k].slots[rank].Some?)
    ensures var c' := Arrive(f, c, k, p, rank, payload, dst, offset);
            && SameBytes(c.mem, c'.mem) && c'.work.colls == c.work.colls - {k}
            && FailedIos(c'.mem, c.work.colls[k].slots, |c.work.colls[k].slots|, InvalidArgument)
            && FinishedWith(c'.mem, c.mem.next, InvalidArgument, 0, 0)
  {
    var n := |c.work.colls[k].slots|;
    RanksFailed(c, k, n, InvalidArgument);
    RejectKeeps(c, k);
    var failed := FailColl(c, k, InvalidArgument).mem;
    assert failed.next == c.mem.next;
    forall r | 0 <= r < n && c.work.colls[k].slots[r].Some?
      ensures c.work.colls[k].slots[r].value.io < c.mem.next
    {
      assert HoldsIo(c.work, CollAt(k, r), c.work.colls[k].slots[r].value.io);
    }
  }

  /** Any other submission joins its entry: its slot holds what it brought, its IO is pending
      and no byte moves, as long as some rank is still missing. */
  lemma FitJoins(f: Reducer, c: Core, k: CollKey, p: CollParams, rank: nat, payload: Bytes, dst: nat, offset: nat)
    requires Balanced(c.mem, c.work) && CollsValid(c.mem, c.work) && ArrivalOk(c.mem, k, p, rank, payload, dst, offset)
    requires k in c.work.colls ==> c.work.colls[k].params == p && c.work.colls[k].slots[rank] == None
    requires if k in c.work.colls then c.work.colls[k].arrivals + 1 < k.size else 1 < k.size
    ensures var c' := Arrive(f, c, k, p, rank, payload, dst, offset);
            && SameBytes(c.mem, c'.mem) && c.mem.next in c'.mem.ios && c'.mem.ios[c.mem.next] == PendingIo()
            && k in c'.work.colls && c'.work.colls[k].params == p && |c'.work.colls[k].slots| == k.size
            && forall r :: 0 <= r < k.size ==>
                 c'.work.colls[k].slots[r] ==
                 if r == rank then Some(CollSlot(payload, dst, offset, c.mem.next))
                 else if k in c.work.colls then c.work.colls[k].slots[r] else None
  {
    BookedKeeps(c.mem, dst);
    ArriveJoins(f, c, k, p, rank, CollSlot(payload, dst, offset, c.mem.next));
  }

  // ---------------------------------------------------------------------------
  // Whole runs

  /** A run of a group that starts freshly attached, and the event that completes a round. */
  ghost predicate FreshRound(
    f: Reducer, g: Group, prog: Program, events: seq<Event>, moments: seq<Moment>, n: nat, i: nat)
  {
    && MatchingRun(f, g, prog, events, moments) && n < |events|
    && Inv(moments[0].engine) && Attended(moments[0].engine.clients, g) && Unused(moments[0].engine.work.colls, g)
    && (forall r :: 0 <= r < |g.members| ==> Seq(moments[0].engine.clients[g.members[r]], CollCounter(g.kind)) == 0)
    && moments[0].log == seq(|g.members|, r => []) && CompletesRound(g, moments[n], events[n], i)
  }

  /** What rank `r` submitted to the round, and where its result goes. */
  predicate Submissions(m: Moment, i: nat, slots: seq<CollSlot>) {
    |slots| == |m.log| && forall r :: 0 <= r < |slots| ==> i < |m.log[r]| && m.log[r][i] == slots[r]
  }

  function SlotPayloads(slots: seq<CollSlot>): (payloads: seq<Bytes>)
    ensures |payloads| == |slots| && forall r :: 0 <= r < |slots| ==> payloads[r] == slots[r].payload
  {
    seq(|slots|, r requires 0 <= r < |slots| => slots[r].payload)
  }

  predicate SlotsApart(slots: seq<CollSlot>, len: int) {
    forall q, r :: 0 <= q < r < |slots| ==>
      slots[q].dst != slots[r].dst || slots[q].offset + len <= slots[r].offset ||
        slots[r].offset + len <= slots[q].offset
  }

  /** Every submission of the round has the round's size. */
  lemma SubmissionSized(
    f: Reducer, g: Group, prog: Program, events: seq<Event>, moments: seq<Moment>, n: nat, i: nat, r: nat)
    requires FreshRound(f, g, prog, events, moments, n, i) && r < |g.members|
    requires |moments[n + 1].log| == |g.members| && i < |moments[n + 1].log[r]|
    ensures |moments[n + 1].log[r][i].payload| == prog(i).count * Width(prog(i).dtype)
    ensures ParamsValid(g.kind, |g.members|, prog(i))
  {
    FreshGroup(moments[0].engine, g, prog);
    LogIsSnapshots(f, g, prog, events, moments, n + 1, r, i);
    var k :| 0 <= k < n + 1 && SnapshotAt(g, prog, moments[k], events[k], r, i, moments[n + 1].log[r][i]);
    PairedForever(f, g, prog, events, moments, k);
    assert MatchingStep(f, g, prog, moments[k], events[k], moments[k + 1]);
    ArrivingSized(moments[k], g, prog, events[k], i, moments[n + 1].log[r][i]);
  }

  lemma ArrivingSized(m: Moment, g: Group, prog: Program, ev: Event, i: nat, slot: CollSlot)
    requires Inv(m.engine) && Paired(m.engine.clients, m.engine.work.colls, g, m.log, prog)
    requires Legal(m.engine, ev) && Conforms(m.engine, g, prog, ev)
    requires Arriving(m.engine, g, ev).Some? && SnapshotAt(g, prog, m, ev, m.engine.clients[ev.client].rank, i, slot)
    ensures |slot.payload| == prog(i).count * Width(prog(i).dtype) && ParamsValid(g.kind, |g.members|, prog(i))
  {
    ArrivingMember(m, g, prog, ev);
    ArrivingSnapshots(m.engine, g, ev);
  }

  /** The round's slots, sized and as the delivery theorem names them. */
  lemma RoundOf(
    f: Reducer, g: Group, prog: Program, events: seq<Event>, moments: seq<Moment>, n: nat, i: nat, slots: seq<CollSlot>)
    requires FreshRound(f, g, prog, events, moments, n, i) && Submissions(moments[n + 1], i, slots)
    ensures |slots| == |g.members| > 0 && Sized(prog(i), SlotPayloads(slots))
    ensures ParamsValid(g.kind, |slots|, prog(i))
    ensures var all := seq(|slots|, r requires 0 <= r < |slots| => Some(slots[r]));
            Full(all) && Outcome(moments[n].engine.mem, moments[n + 1].engine.mem, all,
                                 Output(f, g.kind, prog(i), SlotPayloads(slots)))
  {
    CollectivesDeliver(f, g, prog, events, moments, n, i);
    var log := moments[n + 1].log;
    assert Round(log, i) == seq(|slots|, r requires 0 <= r < |slots| => Some(slots[r]));
    assert RoundPayloads(log, i) == SlotPayloads(slots);
    forall r | 0 <= r < |slots|
      ensures |SlotPayloads(slots)[r]| == prog(i).count * Width(prog(i).dtype) && ParamsValid(g.kind, |slots|, prog(i))
    {
      SubmissionSized(f, g, prog, events, moments, n, i, r);
    }
    assert ParamsValid(g.kind, |slots|, prog(i)) by {
      SubmissionSized(f, g, prog, events, moments, n, i, 0);
    }
  }

  /** The slot's destination has `data` at distance `at` from its start. */
  predicate HasAt(m: Mem, slot: CollSlot, at: int, data: Bytes) {
    && slot.dst in m.buffers && 0 <= at && slot.offset + at + |data| <= |m.buffers[slot.dst].bytes|
    && m.buffers[slot.dst].bytes[slot.offset + at..slot.offset + at + |data|] == data
  }

  predicate Reports(m: Mem, io: nat, bytes: int) {
    io in m.ios && m.ios[io].done && m.ios[io].status == Ok && m.ios[io].bytes == bytes
  }

  lemma SliceOfSlice(s: Bytes, a: nat, b: nat, lo: nat, hi: nat)
    requires a <= b <= |s| && lo <= hi <= b - a
    ensures s[a..b][lo..hi] == s[a + lo..a + hi]
  {
    forall i | 0 <= i < hi - lo
      ensures s[a..b][lo..hi][i] == s[a + lo..a + hi][i]
    {
    }
  }

  lemma HeldSlice(m: Mem, slot: CollSlot, out: Bytes, lo: nat, hi: nat)
    requires Holds(m, slot, out) && lo <= hi <= |out|
    ensures HasAt(m, slot, lo, out[lo..hi])
  {
    SliceOfSlice(m.buffers[slot.dst].bytes, slot.offset, slot.offset + |out|, lo, hi);
  }

  lemma OutcomeHolds(m: Mem, m': Mem, slots: seq<CollSlot>, out: Bytes, r: nat)
    requires var all := seq(|slots|, q requires 0 <= q < |slots| => Some(slots[q]));
             Full(all) && Outcome(m, m', all, Some(out))
    requires SlotsApart(slots, |out|) && r < |slots|
    ensures Holds(m', slots[r], out) && FinishedWith(m', slots[r].io, Ok, |out|, Checksum32(out))
  {
    var all := seq(|slots|, q requires 0 <= q < |slots| => Some(slots[q]));
    forall q, s | 0 <= q < s < |all|
      ensures Apart(all[q].value, all[s].value, |out|)
    {
    }
    assert Disjoint(all, |out|);
    assert all[r] == Some(slots[r]);
  }

  /** The all-reduce theorem for whole runs: when a round is complete, every rank's
      destination holds, at the place of element `j`, the end of the chain over the bytes the
      ranks submitted, and every IO reports the size. */
  lemma RoundReduces(
    f: Reducer, g: Group, prog: Program, events: seq<Event>, moments: seq<Moment>, n: nat, i: nat,
    slots: seq<CollSlot>, j: nat, acc: seq<Bytes>, r: nat)
    requires FreshRound(f, g, prog, events, moments, n, i) && g.kind == AllReduce
    requires Submissions(moments[n + 1], i, slots) && SlotsApart(slots, prog(i).count * Width(prog(i).dtype))
    requires |slots| == 1 || !(HalfPrecision(prog(i).dtype) || prog(i).dtype == UnknownType)
    requires Sized(prog(i), SlotPayloads(slots)) && j < prog(i).count && r < |slots|
    requires Accumulates(f, prog(i), SlotPayloads(slots), j, acc)
    ensures var w := Width(prog(i).dtype);
            var m := moments[n + 1].engine.mem;
            HasAt(m, slots[r], j * w, acc[|acc| - 1]) && Reports(m, slots[r].io, prog(i).count * w)
  {
    RoundOf(f, g, prog, events, moments, n, i, slots);
    ReducesByChain(f, prog(i), SlotPayloads(slots), j, acc);
    var out := Output(f, AllReduce, prog(i), SlotPayloads(slots)).value;
    var m' := moments[n + 1].engine.mem;
    OutcomeHolds(moments[n].engine.mem, m', slots, out, r);
    var w := Width(prog(i).dtype);
    HeldSlice(m', slots[r], out, j * w, (j + 1) * w);
  }

  /** The same for an all-gather: rank `q`'s bytes are the q-th part of every destination. */
  lemma RoundGathers(
    f: Reducer, g: Group, prog: Program, events: seq<Event>, moments: seq<Moment>, n: nat, i: nat,
    slots: seq<CollSlot>, q: nat, r: nat)
    requires FreshRound(f, g, prog, events, moments, n, i) && g.kind == AllGather
    requires Submissions(moments[n + 1], i, slots) && q < |slots| && r < |slots|
    requires SlotsApart(slots, prog(i).count * Width(prog(i).dtype) * |slots|)
    ensures var size := prog(i).count * Width(prog(i).dtype);
            var m := moments[n + 1].engine.mem;
            HasAt(m, slots[r], q * size, slots[q].payload) && Reports(m, slots[r].io, size * |slots|)
  {
    RoundOf(f, g, prog, events, moments, n, i, slots);
    GathersByRank(f, prog(i), SlotPayloads(slots), q);
    var out := Output(f, AllGather, prog(i), SlotPayloads(slots)).value;
    var m' := moments[n + 1].engine.mem;
    var size := prog(i).count * Width(prog(i).dtype);
    OutcomeHolds(moments[n].engine.mem, m', slots, out, r);
    HeldSlice(m', slots[r], out, q * size, (q + 1) * size);
  }
}
