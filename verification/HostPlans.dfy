/** From the caller's channel options to delivery: what the host asks of the device kernel and of
    the plan builder, stated over the options themselves, and when that delivers. */
module HostPlans {
  import opened PayloadPlan
  import opened PairCopy
  import opened TraceGate
  import opened TraceKernel

  /** A fence is asked for by the caller, by the non-blocking write-with-notify, and by RoCE. */
  predicate FenceDue(p: Probe, roce: bool, nbi: bool) {
    roce || p.forceFence || (nbi && p.writeNotify)
  }

  /** The side that posts the data: the sender in the write modes, the receiver otherwise. */
  predicate Posts(role: Role, p: Probe) { (role == Send) == (p.writePath || p.writeNotify) }

  // ---------------------------------------------------------------------------
  // The descriptor

  /** The mode word, bit by bit. */
  lemma ModeWordValue(p: Probe, roce: bool, nbi: bool)
    ensures ModeWord(p, roce, nbi) ==
            (if FenceDue(p, roce, nbi) then 1 else 0) +
            (if p.writeNotify then 0x1000_0000 else 0) +
            (if p.writePath || p.writeNotify then 0x2000_0000 else 0) +
            (if p.binding == ChannelHandle then 0x4000_0000 else 0) +
            (if p.binding == CommName then 0 else 0x8000_0000)
  {
  }

  /** Every field of the descriptor the host fills. */
  lemma DescriptorFields(role: Role, localRank: u32, peerRank: u32, bytes: nat, p: Probe, roce: bool, nbi: bool)
    ensures var d := FillDesc(role, localRank, peerRank, bytes, p, roce, nbi);
            && d.role == (if role == Send then 0 else 1) && d.localRank == localRank && d.peerRank == peerRank
            && d.bytes == bytes && d.readyIdx == 0 && d.doneIdx == 1
            && d.batchMode == (if p.disableBatch then 1 else 0)
            && d.recvPath == (if p.recvDirect && !p.writePath then 1 else 0)
            && (Drains(d.mode) <==> FenceDue(p, roce, nbi))
            && (WritePath(d.mode) <==> p.writePath || p.writeNotify) && (WriteNotify(d.mode) <==> p.writeNotify)
            && (SkipsComm(d.mode) <==> p.binding != CommName)
  {
    ModeWordReads(p, roce, nbi);
  }

  // ---------------------------------------------------------------------------
  // The plan

  /** Plan and kernel fence exactly on the side that posts and exactly when a fence is due. */
  lemma FenceExactly(role: Role, localRank: u32, peerRank: u32, bytes: nat, p: Probe, roce: bool, nbi: bool)
    ensures Fence in Steps(role, PlanOptions(p, roce, nbi)) <==> FenceDue(p, roce, nbi) && Posts(role, p)
    ensures Fence in KernelSteps(FillDesc(role, localRank, peerRank, bytes, p, roce, nbi)) <==>
            FenceDue(p, roce, nbi) && Posts(role, p)
  {
    KernelRunsPlan(role, localRank, peerRank, bytes, p, roce, nbi);
    var o := PlanOptions(p, roce, nbi);
    assert Fences(o) == if FenceDue(p, roce, nbi) then [Fence] else [];
  }

  /** The other steps, by the options: data is written or read by one side, to the buffer or
      straight to the output, and announced apart from the data unless the write carries it. */
  lemma PlanSteps(p: Probe, roce: bool, nbi: bool)
    ensures var send := Steps(Send, PlanOptions(p, roce, nbi));
            && (WriteRemoteNotify in send <==> p.writeNotify)
            && (WriteRemote in send <==> p.writePath && !p.writeNotify)
            && (RecordReady in send <==> !p.writeNotify)
            && send[0] == CopyInputToBuffer && send[|send| - 1] == WaitDone
    ensures var recv := Steps(Recv, PlanOptions(p, roce, nbi));
            && (ReadRemoteToOutput in recv <==> p.recvDirect && !p.writePath && !p.writeNotify)
            && (ReadRemoteToBuffer in recv <==> !p.recvDirect && !p.writePath && !p.writeNotify)
            && (CopyBufferToOutput in recv <==> ReadRemoteToOutput !in recv)
            && recv[0] == WaitReady && recv[|recv| - 1] == RecordDone
  {
  }

  /** Every plan the host makes can be built for both ranks. */
  lemma HostPlanBuilds(p: Probe, roce: bool, nbi: bool)
    ensures Receivable(PlanOptions(p, roce, nbi))
  {
  }

  // ---------------------------------------------------------------------------
  // Delivery

  /** The host's plans deliver in every run, on the given channel and with or without priming,
      if and only if: on a channel where data can be overtaken, it is RoCE, or a fence was
      forced, or the write carries its notify; and with priming, nobody writes the peer's
      buffer. */
  lemma HostDeliversExactly(p: Probe, roce: bool, nbi: bool, primed: bool, weak: bool)
    ensures AlwaysDelivers(PlanOptions(p, roce, nbi), primed, weak) <==>
            && (weak ==> roce || p.forceFence || p.writeNotify)
            && (primed ==> !p.writePath && !p.writeNotify)
  {
    HostPlanBuilds(p, roce, nbi);
    DeliveryIsExact(PlanOptions(p, roce, nbi), primed, weak);
  }

  /** So every plan the host makes for RoCE delivers on the weak channel, whatever the options. */
  lemma RocePlansDeliver(p: Probe, nbi: bool)
    ensures Safe(PlanOptions(p, true, nbi), false, true) && AlwaysDelivers(PlanOptions(p, true, nbi), false, true)
  {
    HostDeliversExactly(p, true, nbi, false, true);
  }
}
