/** The NVMe read and write commands of the storage canary, with the 64-bit arithmetic they
    are planned in. Fields follow sections 3.2.4 and 3.2.6 of the NVM Command Set
    Specification 1.0. */
module Nvme {
  import opened Common

  const U32: nat := 0x1_0000_0000
  const U64: nat := 0x1_0000_0000_0000_0000
  const MAX_BLOCKS: nat := 65536
  /** The first MiB of a namespace is never written. */
  const PROTECTED: nat := 0x10_0000

  datatype Direction = ReadToHbm | WriteRoundTrip

  datatype Config = Config(
    hasPath: bool, direction: Direction, slba: nat, bytes: nat, lbaBytes: nat, namespaceBytes: nat,
    timeoutMs: nat, writeConfirmed: bool)

  predicate Is64Bit(c: Config) {
    c.slba < U64 && c.bytes < U64 && c.lbaBytes < U64 && c.namespaceBytes < U64 && c.timeoutMs < U32
  }

  datatype IoPlan = IoPlan(
    opcode: nat, nsid: nat, dataLen: nat, cdw10: nat, cdw11: nat, cdw12: nat, timeoutMs: nat, byteOffset: nat,
    blockCount: nat)

  /** Bitwise and. */
  function BitAnd(a: nat, b: nat): nat {
    if a == 0 || b == 0 then 0 else (a % 2) * (b % 2) + 2 * BitAnd(a / 2, b / 2)
  }

  /** The bit test of the canary. */
  predicate IsPowerOfTwo(value: nat) { value != 0 && BitAnd(value, value - 1) == 0 }

  predicate PowerOfTwo(value: nat) { value == 1 || (value > 1 && value % 2 == 0 && PowerOfTwo(value / 2)) }

  lemma {:induction false} BitAndSelf(value: nat)
    ensures BitAnd(value, value) == value
  {
    if value > 0 {
      BitAndSelf(value / 2);
    }
  }

  /** The bit test accepts exactly the powers of two. */
  lemma {:induction false} BitTestExact(value: nat)
    requires value > 0
    ensures IsPowerOfTwo(value) <==> PowerOfTwo(value)
  {
    if value > 1 {
      if value % 2 == 0 {
        BitTestExact(value / 2);
        assert (value - 1) / 2 == value / 2 - 1;
      } else {
        BitAndSelf(value / 2);
        assert (value - 1) / 2 == value / 2;
      }
    }
  }

  function Wrap64(x: nat): nat { x % U64 }

  /** Guards and plan as the canary computes them; products wrap at 64 bits. */
  function BuildCanaryPlan(c: Config, nsid: nat): Option<IoPlan> {
    if !c.hasPath || nsid == 0 || c.bytes == 0 || c.bytes > U32 - 1 || c.timeoutMs == 0 then None
    else if c.lbaBytes < 512 || !IsPowerOfTwo(c.lbaBytes) || c.bytes % c.lbaBytes != 0 then None
    else
      var blocks := c.bytes / c.lbaBytes;
      if blocks == 0 || blocks > MAX_BLOCKS || c.slba > U64 - 1 - blocks then None
      else if c.namespaceBytes < c.lbaBytes || c.namespaceBytes % c.lbaBytes != 0 then None
      else if c.slba >= c.namespaceBytes / c.lbaBytes || blocks > c.namespaceBytes / c.lbaBytes - c.slba then None
      else if c.direction == WriteRoundTrip && !c.writeConfirmed then None
      else if c.direction == WriteRoundTrip && Wrap64(c.slba * c.lbaBytes) < PROTECTED then None
      else
        Some(PlanOf(c, nsid, blocks))
  }

  function PlanOf(c: Config, nsid: nat, blocks: nat): IoPlan
    requires blocks > 0
  {
    IoPlan(if c.direction == ReadToHbm then 2 else 1, nsid, c.bytes % U32, c.slba % U32, c.slba / U32 % U32,
           (blocks - 1) % U32, c.timeoutMs, Wrap64(c.slba * c.lbaBytes), blocks)
  }

  /** What the request must satisfy, in exact arithmetic. */
  predicate Admissible(c: Config, nsid: nat) {
    && c.hasPath && nsid != 0 && c.timeoutMs != 0 && 0 < c.bytes < U32
    && c.lbaBytes >= 512 && PowerOfTwo(c.lbaBytes)
    && c.bytes % c.lbaBytes == 0 && c.bytes / c.lbaBytes <= MAX_BLOCKS
    && c.namespaceBytes % c.lbaBytes == 0
    && c.slba * c.lbaBytes + c.bytes <= c.namespaceBytes
    && (c.direction == WriteRoundTrip ==> c.writeConfirmed && c.slba * c.lbaBytes >= PROTECTED)
  }

  lemma Multiples(n: nat, lba: nat)
    requires lba > 0 && n % lba == 0
    ensures (n / lba) * lba == n
  {
  }

  lemma Distribute(a: nat, d: nat, lba: nat)
    ensures (a + d) * lba == a * lba + d * lba
  {
  }

  lemma {:induction false} AtLeast(d: nat, lba: nat)
    requires d > 0
    ensures d * lba >= lba
  {
    Distribute(d - 1, 1, lba);
  }

  lemma ScaleOrder(a: nat, b: nat, lba: nat)
    requires lba > 0
    ensures a <= b <==> a * lba <= b * lba
  {
    if a <= b {
      Distribute(a, b - a, lba);
    } else {
      Distribute(b, a - b, lba);
      AtLeast(a - b, lba);
    }
  }

  /** The block range check in block units is the byte range check. */
  lemma RangeInBytes(slba: nat, blocks: nat, limit: nat, lba: nat)
    requires lba > 0 && blocks > 0
    ensures slba < limit && blocks <= limit - slba <==> slba * lba + blocks * lba <= limit * lba
  {
    ScaleOrder(slba + blocks, limit, lba);
    Distribute(slba, blocks, lba);
  }

  lemma SmallSlba(slba: nat, blocks: nat, limit: nat, lba: nat)
    requires lba > 1 && slba + blocks <= limit && limit * lba < U64
    ensures slba + blocks < U64
  {
    AtLeast(lba, limit);
    assert lba * limit == limit * lba;
  }

  lemma Quotient(n: nat, lba: nat)
    requires lba > 0 && n > 0 && n % lba == 0
    ensures n / lba > 0 && n >= lba
  {
    Multiples(n, lba);
    if n / lba > 0 {
      AtLeast(n / lba, lba);
    }
  }

  lemma PlannedAreAdmissible(c: Config, nsid: nat)
    requires Is64Bit(c) && BuildCanaryPlan(c, nsid).Some?
    ensures Admissible(c, nsid)
  {
    BitTestExact(c.lbaBytes);
    RangeExactly(c);
    NoWrap(c.slba * c.lbaBytes);
  }

  lemma NoWrap(x: nat)
    ensures x < U64 ==> Wrap64(x) == x
  {
  }

  lemma AdmissibleArePlanned(c: Config, nsid: nat)
    requires Is64Bit(c) && Admissible(c, nsid)
    ensures BuildCanaryPlan(c, nsid).Some?
  {
    BitTestExact(c.lbaBytes);
    RangeExactly(c);
    NoWrap(c.slba * c.lbaBytes);
  }

  /** For all 64-bit inputs: a plan is made exactly for the admissible requests. */
  lemma PlannedExactly(c: Config, nsid: nat)
    requires Is64Bit(c)
    ensures BuildCanaryPlan(c, nsid).Some? <==> Admissible(c, nsid)
  {
    if BuildCanaryPlan(c, nsid).Some? {
      PlannedAreAdmissible(c, nsid);
    }
    if Admissible(c, nsid) {
      AdmissibleArePlanned(c, nsid);
    }
  }

  lemma RangeExactly(c: Config)
    requires Is64Bit(c) && c.bytes > 0 && c.lbaBytes >= 512 && c.bytes % c.lbaBytes == 0
    requires c.namespaceBytes % c.lbaBytes == 0
    ensures var blocks, limit := c.bytes / c.lbaBytes, c.namespaceBytes / c.lbaBytes;
            && blocks > 0
            && (c.slba < limit && blocks <= limit - c.slba <==> c.slba * c.lbaBytes + c.bytes <= c.namespaceBytes)
            && (c.slba < limit && blocks <= limit - c.slba ==>
                  c.slba + blocks < U64 && c.namespaceBytes >= c.lbaBytes && c.slba * c.lbaBytes < U64)
  {
    var blocks, limit := c.bytes / c.lbaBytes, c.namespaceBytes / c.lbaBytes;
    Multiples(c.bytes, c.lbaBytes);
    Multiples(c.namespaceBytes, c.lbaBytes);
    Quotient(c.bytes, c.lbaBytes);
    RangeInBytes(c.slba, blocks, limit, c.lbaBytes);
    if c.slba < limit && blocks <= limit - c.slba {
      SmallSlba(c.slba, blocks, limit, c.lbaBytes);
      Quotient(c.namespaceBytes, c.lbaBytes);
    }
  }

  /** What an accepted plan says: no product wrapped; it covers exactly a whole-block range
      inside the namespace; the two halves of the start LBA recombine to it; the 0's-based
      block count fits 16 bits; and a write starts at or beyond the first MiB. */
  lemma PlanMeans(c: Config, nsid: nat)
    requires Is64Bit(c) && BuildCanaryPlan(c, nsid).Some?
    ensures var p := BuildCanaryPlan(c, nsid).value;
            && p.byteOffset == c.slba * c.lbaBytes && p.blockCount * c.lbaBytes == c.bytes == p.dataLen
            && p.byteOffset + p.dataLen <= c.namespaceBytes
            && c.slba + p.blockCount <= c.namespaceBytes / c.lbaBytes
            && p.cdw11 * U32 + p.cdw10 == c.slba && p.cdw10 < U32 && p.cdw11 < U32
            && p.cdw12 + 1 == p.blockCount && p.cdw12 < 0x1_0000
            && p.opcode == (if c.direction == ReadToHbm then 2 else 1) && p.nsid == nsid && p.timeoutMs == c.timeoutMs
            && (c.direction == WriteRoundTrip ==> p.byteOffset >= PROTECTED && c.writeConfirmed)
  {
    PlanFields(c, nsid);
    PlannedAreAdmissible(c, nsid);
    RangeExactly(c);
    Multiples(c.bytes, c.lbaBytes);
    NoWrap(c.slba * c.lbaBytes);
  }

  /** The fields of a plan, before the arithmetic. */
  lemma PlanFields(c: Config, nsid: nat)
    requires Is64Bit(c) && BuildCanaryPlan(c, nsid).Some?
    ensures var p := BuildCanaryPlan(c, nsid).value;
            && p.opcode == (if c.direction == ReadToHbm then 2 else 1) && p.nsid == nsid && p.timeoutMs == c.timeoutMs
            && p.dataLen == c.bytes && p.byteOffset == Wrap64(c.slba * c.lbaBytes)
            && p.blockCount == c.bytes / c.lbaBytes && p.cdw12 + 1 == p.blockCount <= MAX_BLOCKS
            && p.cdw11 * U32 + p.cdw10 == c.slba && p.cdw10 < U32 && p.cdw11 < U32
  {
    MadeFields(c, nsid, c.bytes / c.lbaBytes);
  }

  lemma MadeFields(c: Config, nsid: nat, blocks: nat)
    requires Is64Bit(c) && c.bytes < U32 && 0 < blocks <= MAX_BLOCKS
    ensures var p := PlanOf(c, nsid, blocks);
            && p.opcode == (if c.direction == ReadToHbm then 2 else 1) && p.nsid == nsid && p.timeoutMs == c.timeoutMs
            && p.dataLen == c.bytes && p.byteOffset == Wrap64(c.slba * c.lbaBytes)
            && p.blockCount == blocks && p.cdw12 + 1 == blocks
            && p.cdw11 * U32 + p.cdw10 == c.slba && p.cdw10 < U32 && p.cdw11 < U32
  {
    Halves(c.slba);
  }

  lemma Halves(slba: nat)
    requires slba < U64
    ensures (slba / U32 % U32) * U32 + slba % U32 == slba
  {
  }
}
