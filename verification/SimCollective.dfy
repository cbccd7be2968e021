/** Simulated collectives: ranks submit into an entry of the collective table; the last
    arrival computes the result, writes it to every destination and completes every IO. */
module SimCollective {
  import opened Common
  import opened SimState

  /** The reduction operator on two encoded elements. It is a parameter: no associativity,
      no commutativity and no arithmetic is assumed of it. */
  type Reducer = (DataType, ReduceOp, Bytes, Bytes) -> Bytes

  datatype Core = Core(mem: Mem, work: Work)

  // ---------------------------------------------------------------------------
  // The result of a collective

  /** Exactly `width` bytes, as a typed element store writes them. */
  function Fit(x: Bytes, width: nat): (r: Bytes)
    ensures |r| == width
  {
    if |x| == width then x else seq(width, i requires 0 <= i < width => if i < |x| then x[i] else 0)
  }

  /** Element `i` of a payload of `width`-byte elements. */
  function Element(payload: Bytes, i: nat, width: nat): Bytes {
    if (i + 1) * width <= |payload| then payload[i * width..(i + 1) * width] else []
  }

  /** The left fold over ranks 0..n-1 of element `i`. */
  function FoldElement(f: Reducer, p: CollParams, payloads: seq<Bytes>, i: nat, n: nat): (r: Bytes)
    requires 0 < n <= |payloads|
    ensures |r| == Width(p.dtype)
  {
    var w := Width(p.dtype);
    if n == 1 then Fit(Element(payloads[0], i, w), w)
    else Fit(f(p.dtype, p.op, FoldElement(f, p, payloads, i, n - 1), Element(payloads[n - 1], i, w)), w)
  }

  /** The first `count` reduced elements. */
  function Reduced(f: Reducer, p: CollParams, payloads: seq<Bytes>, count: nat): (r: Bytes)
    requires |payloads| > 0
    ensures |r| == count * Width(p.dtype)
  {
    if count == 0 then []
    else Reduced(f, p, payloads, count - 1) + FoldElement(f, p, payloads, count - 1, |payloads|)
  }

  /** The payloads of ranks 0..n-1 in rank order. */
  function Gathered(payloads: seq<Bytes>, n: nat): Bytes
    requires n <= |payloads|
  {
    if n == 0 then [] else Gathered(payloads, n - 1) + payloads[n - 1]
  }

  predicate Reducible(t: DataType) { t != Fp16 && t != Bfp16 && t != UnknownType }

  /** What every destination receives; None if the element type cannot be reduced. */
  function Output(f: Reducer, kind: CollKind, p: CollParams, payloads: seq<Bytes>): Option<Bytes>
    requires |payloads| > 0
  {
    if kind == AllGather then Some(Gathered(payloads, |payloads|))
    else if |payloads| == 1 then Some(payloads[0])
    else if Reducible(p.dtype) then Some(Reduced(f, p, payloads, p.count))
    else None
  }

  predicate ParamsValid(kind: CollKind, size: nat, p: CollParams) {
    && p.inBytes == p.count * Width(p.dtype)
    && p.outBytes == if kind == AllReduce then p.inBytes else p.inBytes * size
  }

  lemma {:induction false} GatheredSize(payloads: seq<Bytes>, n: nat, size: nat)
    requires n <= |payloads| && forall r :: 0 <= r < |payloads| ==> |payloads[r]| == size
    ensures |Gathered(payloads, n)| == size * n
  {
    if n > 0 {
      GatheredSize(payloads, n - 1, size);
      assert size * n == size * (n - 1) + size;
    }
  }

  lemma OutputSize(f: Reducer, kind: CollKind, p: CollParams, payloads: seq<Bytes>)
    requires |payloads| > 0 && ParamsValid(kind, |payloads|, p)
    requires forall r :: 0 <= r < |payloads| ==> |payloads[r]| == p.inBytes
    ensures Output(f, kind, p, payloads).Some? ==> |Output(f, kind, p, payloads).value| == p.outBytes
  {
    GatheredSize(payloads, |payloads|, p.inBytes);
  }

  // ---------------------------------------------------------------------------
  // The table

  function CountFilled(slots: seq<Option<CollSlot>>): nat {
    if slots == [] then 0
    else CountFilled(slots[..|slots| - 1]) + if slots[|slots| - 1].Some? then 1 else 0
  }

  predicate SlotValid(m: Mem, p: CollParams, slot: CollSlot) {
    |slot.payload| == p.inBytes && ValidRange(m, slot.dst, slot.offset, p.outBytes)
  }

  /** An entry while ranks are still missing. */
  predicate EntryValid(m: Mem, k: CollKey, e: PendingColl) {
    && |e.slots| == k.size && ParamsValid(k.kind, k.size, e.params)
    && e.arrivals == CountFilled(e.slots)
    && forall r :: 0 <= r < |e.slots| && e.slots[r].Some? ==> SlotValid(m, e.params, e.slots[r].value)
  }

  predicate CollsValid(m: Mem, w: Work) {
    forall k :: k in w.colls ==> EntryValid(m, k, w.colls[k]) && w.colls[k].arrivals < k.size
  }

  /** Empties one slot of an entry. */
  function Vacate(w: Work, k: CollKey, r: nat): Work
    requires k in w.colls && r < |w.colls[k].slots|
  {
    w.(colls := w.colls[k := w.colls[k].(slots := w.colls[k].slots[r := None])])
  }

  predicate Filled(w: Work, k: CollKey, r: nat) {
    k in w.colls && r < |w.colls[k].slots| && w.colls[k].slots[r].Some?
  }

  function FailSlot(c: Core, k: CollKey, r: nat, status: Status): Core {
    if Filled(c.work, k, r) then
      var slot := c.work.colls[k].slots[r].value;
      Core(FinishIo(ReleaseBuffer(c.mem, slot.dst), slot.io, status, 0, 0), Vacate(c.work, k, r))
    else c
  }

  function FailRanks(c: Core, k: CollKey, n: nat, status: Status): Core {
    if n == 0 then c else FailSlot(FailRanks(c, k, n - 1, status), k, n - 1, status)
  }

  function CompleteSlot(c: Core, k: CollKey, r: nat, out: Bytes): Core {
    if Filled(c.work, k, r) then
      var slot := c.work.colls[k].slots[r].value;
      var stored := Store(c.mem, slot.dst, slot.offset, out);
      Core(FinishIo(ReleaseBuffer(stored, slot.dst), slot.io, Ok, |out|, Checksum32(out)), Vacate(c.work, k, r))
    else c
  }

  function CompleteRanks(c: Core, k: CollKey, n: nat, out: Bytes): Core {
    if n == 0 then c else CompleteSlot(CompleteRanks(c, k, n - 1, out), k, n - 1, out)
  }

  function EraseColl(c: Core, k: CollKey): Core {
    c.(work := c.work.(colls := c.work.colls - {k}))
  }

  /** Fails every rank that has arrived, in rank order, and drops the entry. */
  function FailColl(c: Core, k: CollKey, status: Status): Core {
    if k in c.work.colls then EraseColl(FailRanks(c, k, |c.work.colls[k].slots|, status), k) else c
  }

  function Payloads(e: PendingColl): seq<Bytes> {
    seq(|e.slots|, r requires 0 <= r < |e.slots| => if e.slots[r].Some? then e.slots[r].value.payload else [])
  }

  /** What the last arrival does. */
  function FinishColl(f: Reducer, c: Core, k: CollKey): Core {
    if k !in c.work.colls || |c.work.colls[k].slots| == 0 then c
    else
      var e := c.work.colls[k];
      match Output(f, k.kind, e.params, Payloads(e))
      case None => FailColl(c, k, Unsupported)
      case Some(out) => EraseColl(CompleteRanks(c, k, |e.slots|, out), k)
  }

  function EntryOr(w: Work, k: CollKey, p: CollParams): PendingColl {
    if k in w.colls then w.colls[k] else PendingColl(p, seq(k.size, i => None), 0)
  }

  function PendingIo(): Io { Io(false, Pending, 0, 0, 1) }

  /** A validated submission reaches the table. Its IO is handle `c.mem.next`. */
  function Arrive(
    f: Reducer, c: Core, k: CollKey, p: CollParams, rank: nat, payload: Bytes, dst: nat, offset: nat
  ): Core {
    var e := EntryOr(c.work, k, p);
    if e.params != p || rank >= |e.slots| || e.slots[rank].Some? then
      var failed := FailColl(c, k, InvalidArgument);
      failed.(mem := NewIo(failed.mem, DoneIo(InvalidArgument)))
    else
      var slot := CollSlot(payload, dst, offset, c.mem.next);
      var e' := PendingColl(p, e.slots[rank := Some(slot)], e.arrivals + 1);
      var mem := RetainBuffer(NewIo(c.mem, PendingIo()), dst);
      var joined := Core(mem, c.work.(colls := c.work.colls[k := e']));
      if e'.arrivals == k.size then FinishColl(f, joined, k) else joined
  }
}
