/** The HCOMM pair-copy plan builder: which primitives the send and the receive
    rank of one payload copy run, in which order. */
module PayloadPlan {

  datatype Role = Send | Recv

  datatype Step =
    | CopyInputToBuffer
    | RecordReady
    | WaitReady
    | ReadRemoteToBuffer
    | WaitDone
    | RecordDone
    | CopyBufferToOutput
    | ReadRemoteToOutput
    | WriteRemote
    | WriteRemoteNotify
    | Fence

  datatype TransferMode = Read | Write | WriteWithNotify
  datatype RecvPath = LocalBuffer | DirectOutput
  datatype CommBinding = CommName | DiagnosticSkip | ChannelHandle
  datatype CompletionMode = OrderedNotify | ChannelFence

  datatype Options = Options(
    mode: TransferMode,
    recvPath: RecvPath,
    binding: CommBinding,
    completion: CompletionMode,
    batch: bool)

  datatype Plan = Plan(
    role: Role,
    localRank: nat,
    peerRank: nat,
    rankSize: nat,
    bytes: nat,
    options: Options,
    steps: seq<Step>)

  datatype PlanError = NotAPair | InvalidPeerRank | EmptyPayload | DirectOutputNeedsRead
  datatype PlanResult = Planned(plan: Plan) | Rejected(error: PlanError)

  /** Options that the receive rank can run: only a read can target the output directly. */
  predicate Receivable(o: Options) {
    o.mode == Read || o.recvPath == LocalBuffer
  }

  function Fences(o: Options): seq<Step> {
    if o.completion == ChannelFence then [Fence] else []
  }

  function SendSteps(o: Options): seq<Step> {
    match o.mode
    case Read => [CopyInputToBuffer, RecordReady, WaitDone]
    case Write => [CopyInputToBuffer, WriteRemote] + Fences(o) + [RecordReady, WaitDone]
    case WriteWithNotify => [CopyInputToBuffer, WriteRemoteNotify] + Fences(o) + [WaitDone]
  }

  function RecvSteps(o: Options): seq<Step> {
    match o.mode
    case Read =>
      if o.recvPath == DirectOutput
      then [WaitReady, ReadRemoteToOutput] + Fences(o) + [RecordDone]
      else [WaitReady, ReadRemoteToBuffer] + Fences(o) + [CopyBufferToOutput, RecordDone]
    case _ => [WaitReady, CopyBufferToOutput, RecordDone]
  }

  function Steps(role: Role, o: Options): seq<Step> {
    if role == Send then SendSteps(o) else RecvSteps(o)
  }

  /** The builder rejects exactly the requests below, checked in this order, and
      otherwise returns the step list of the role. */
  method BuildPairCopyPlan(role: Role, localRank: nat, peerRank: nat, rankSize: nat, bytes: nat, o: Options)
    returns (r: PlanResult)
    ensures r.Planned? <==>
      rankSize == 2 && localRank < 2 && peerRank < 2 && localRank != peerRank && bytes != 0 &&
      (role == Recv ==> Receivable(o))
    ensures r.Planned? ==> r.plan == Plan(role, localRank, peerRank, rankSize, bytes, o, Steps(role, o))
    ensures r.Rejected? ==>
      r == Rejected(if rankSize != 2 then NotAPair
                    else if localRank >= 2 || peerRank >= 2 || localRank == peerRank then InvalidPeerRank
                    else if bytes == 0 then EmptyPayload
                    else DirectOutputNeedsRead)
  {
    if rankSize != 2 {
      return Rejected(NotAPair);
    }
    if localRank >= rankSize || peerRank >= rankSize || localRank == peerRank {
      return Rejected(InvalidPeerRank);
    }
    if bytes == 0 {
      return Rejected(EmptyPayload);
    }
    if o.mode == WriteWithNotify && role == Recv && o.recvPath == DirectOutput {
      return Rejected(DirectOutputNeedsRead);
    }
    if o.mode == Write && role == Recv && o.recvPath == DirectOutput {
      return Rejected(DirectOutputNeedsRead);
    }
    var steps: seq<Step> := [];
    if role == Send {
      steps := steps + [CopyInputToBuffer];
      if o.mode == WriteWithNotify {
        steps := steps + [WriteRemoteNotify];
        if o.completion == ChannelFence {
          steps := steps + [Fence];
        }
      } else if o.mode == Write {
        steps := steps + [WriteRemote];
        if o.completion == ChannelFence {
          steps := steps + [Fence];
        }
        steps := steps + [RecordReady];
      } else {
        steps := steps + [RecordReady];
      }
      steps := steps + [WaitDone];
    } else {
      steps := steps + [WaitReady];
      if o.mode == Read {
        if o.recvPath == DirectOutput {
          steps := steps + [ReadRemoteToOutput];
        } else {
          steps := steps + [ReadRemoteToBuffer];
        }
        if o.completion == ChannelFence {
          steps := steps + [Fence];
        }
      }
      if o.mode != Read || o.recvPath != DirectOutput {
        steps := steps + [CopyBufferToOutput];
      }
      steps := steps + [RecordDone];
    }
    r := Planned(Plan(role, localRank, peerRank, rankSize, bytes, o, steps));
  }
}
