/** The two ranks of a pair copy as an interleaving transition system.

    The send and the receive rank run their plans for any number of back-to-back
    rounds over two staging buffers and the two channel notifies. A posted read or
    write either takes effect at once (`weak == false`) or, on a weak channel, stays
    in flight: it fetches its source at some later moment, leaves its destination in
    an arbitrary state while it is landing, and may be overtaken by separate notifies.
    `primed` adds the host step that fills the local staging buffer with a sentinel
    before each launch. */
module PairCopy {
  import opened Common
  import opened PayloadPlan

  datatype Env = Env(
    weak: bool,
    primed: bool,
    inputs: seq<Bytes>,
    sendPrime: Bytes,
    recvPrime: Bytes)

  datatype OpKind = OpWrite | OpWriteNotify | OpReadBuffer | OpReadOutput
  /** An operation in flight; `round` is the transfer it belongs to. */
  datatype Op = Op(kind: OpKind, round: nat)
  /** An operation that has read its source and is on its way to its destination. */
  datatype Landing = Landing(op: Op, data: Bytes)

  datatype Config = Config(
    sRound: nat, sPc: nat,
    rRound: nat, rPc: nat,
    sBuf: Bytes, rBuf: Bytes,
    ready: bool, done: bool,
    posted: seq<Op>, landing: seq<Landing>,
    outputs: seq<Bytes>,
    overrun: bool)

  datatype Event = StepSend | StepRecv | Fetch(op: nat, scribble: Bytes) | Land(op: nat)

  datatype Instr = Prime | Do(step: Step)

  /** The host step that precedes the plan of each round, if any. */
  function Lead(env: Env): nat { if env.primed then 1 else 0 }

  function Length(role: Role, o: Options, env: Env): nat { Lead(env) + |Steps(role, o)| }

  /** One round of a rank: the priming host step, then the steps of its plan. */
  function InstrAt(role: Role, o: Options, env: Env, pc: nat): Instr
    requires pc < Length(role, o, env)
  {
    if pc < Lead(env) then Prime else Do(Steps(role, o)[pc - Lead(env)])
  }

  /** No data operation is in flight. */
  predicate Quiet(c: Config) {
    c.posted == [] && c.landing == []
  }

  predicate SendOp(op: Op) {
    op.kind == OpWrite || op.kind == OpWriteNotify
  }

  predicate Initial(env: Env, c: Config) {
    && c.sRound == 0 && c.sPc == 0 && c.rRound == 0 && c.rPc == 0
    && !c.ready && !c.done && Quiet(c) && !c.overrun
    && |c.outputs| == |env.inputs|
  }

  predicate Finished(env: Env, c: Config) {
    c.sRound == |env.inputs| && c.rRound == |env.inputs| && Quiet(c)
  }

  predicate InstrEnabled(role: Role, instr: Instr, c: Config) {
    match instr
    case Do(WaitReady) => c.ready
    case Do(WaitDone) => c.done
    case Do(Fence) =>
      && (forall i :: 0 <= i < |c.posted| ==> SendOp(c.posted[i]) != (role == Send))
      && (forall i :: 0 <= i < |c.landing| ==> SendOp(c.landing[i].op) != (role == Send))
    case _ => true
  }

  predicate Enabled(o: Options, env: Env, c: Config, ev: Event) {
    match ev
    case StepSend =>
      c.sRound < |env.inputs| && c.sPc < Length(Send, o, env) &&
      InstrEnabled(Send, InstrAt(Send, o, env, c.sPc), c)
    case StepRecv =>
      c.rRound < |env.inputs| && c.rPc < Length(Recv, o, env) &&
      InstrEnabled(Recv, InstrAt(Recv, o, env, c.rPc), c)
    case Fetch(i, _) => i < |c.posted|
    case Land(i) => i < |c.landing|
  }

  function Without<T>(s: seq<T>, i: nat): (r: seq<T>)
    requires i < |s|
    ensures |r| == |s| - 1
  {
    s[..i] + s[i + 1..]
  }

  /** Where an operation puts its data. */
  function Deposit(c: Config, kind: OpKind, round: nat, data: Bytes): Config {
    if kind == OpReadOutput
    then if round < |c.outputs| then c.(outputs := c.outputs[round := data]) else c
    else c.(rBuf := data)
  }

  function SetReady(c: Config): Config {
    c.(ready := true, overrun := c.overrun || c.ready)
  }

  function SetDone(c: Config): Config {
    c.(done := true, overrun := c.overrun || c.done)
  }

  /** Issues a data operation: at once on a synchronous channel, in flight on a weak one. */
  function Issue(env: Env, c: Config, kind: OpKind, round: nat): Config {
    if env.weak then c.(posted := c.posted + [Op(kind, round)])
    else
      var c' := Deposit(c, kind, round, c.sBuf);
      if kind == OpWriteNotify then SetReady(c') else c'
  }

  function ExecuteStep(env: Env, c: Config, round: nat, step: Step): Config
    requires round < |env.inputs|
  {
    match step
    case CopyInputToBuffer => c.(sBuf := env.inputs[round])
    case RecordReady => SetReady(c)
    case WaitReady => c.(ready := false)
    case ReadRemoteToBuffer => Issue(env, c, OpReadBuffer, round)
    case WaitDone => c.(done := false)
    case RecordDone => SetDone(c)
    case CopyBufferToOutput => Deposit(c, OpReadOutput, round, c.rBuf)
    case ReadRemoteToOutput => Issue(env, c, OpReadOutput, round)
    case WriteRemote => Issue(env, c, OpWrite, round)
    case WriteRemoteNotify => Issue(env, c, OpWriteNotify, round)
    case Fence => c
  }

  function Execute(env: Env, c: Config, role: Role, round: nat, instr: Instr): Config
    requires round < |env.inputs|
  {
    match instr
    case Prime => if role == Send then c.(sBuf := env.sendPrime) else c.(rBuf := env.recvPrime)
    case Do(step) => ExecuteStep(env, c, round, step)
  }

  function AdvanceSend(length: nat, c: Config): Config {
    if c.sPc + 1 < length then c.(sPc := c.sPc + 1) else c.(sRound := c.sRound + 1, sPc := 0)
  }

  function AdvanceRecv(length: nat, c: Config): Config {
    if c.rPc + 1 < length then c.(rPc := c.rPc + 1) else c.(rRound := c.rRound + 1, rPc := 0)
  }

  function Next(o: Options, env: Env, c: Config, ev: Event): Config
    requires Enabled(o, env, c, ev)
  {
    match ev
    case StepSend =>
      AdvanceSend(Length(Send, o, env), Execute(env, c, Send, c.sRound, InstrAt(Send, o, env, c.sPc)))
    case StepRecv =>
      AdvanceRecv(Length(Recv, o, env), Execute(env, c, Recv, c.rRound, InstrAt(Recv, o, env, c.rPc)))
    case Fetch(i, scribble) =>
      var op := c.posted[i];
      Deposit(c.(posted := Without(c.posted, i), landing := c.landing + [Landing(op, c.sBuf)]),
              op.kind, op.round, scribble)
    case Land(i) =>
      var op := c.landing[i].op;
      var c' := Deposit(c.(landing := Without(c.landing, i)), op.kind, op.round, c.landing[i].data);
      if op.kind == OpWriteNotify then SetReady(c') else c'
  }

  /** `trace` is a run: it starts in an initial configuration and every configuration
      follows from the one before by an enabled event. */
  ghost predicate IsRun(o: Options, env: Env, trace: seq<Config>) {
    && |trace| > 0
    && Initial(env, trace[0])
    && forall i :: 0 <= i < |trace| - 1 ==> CanStep(o, env, trace[i], trace[i + 1])
  }

  ghost predicate CanStep(o: Options, env: Env, c: Config, c': Config) {
    exists ev :: Enabled(o, env, c, ev) && c' == Next(o, env, c, ev)
  }

  /** Every round the receiver has finished delivered its input, and no notify was
      recorded while it was still set. */
  predicate Correct(env: Env, c: Config) {
    && !c.overrun
    && c.rRound <= |env.inputs| == |c.outputs|
    && forall k :: 0 <= k < c.rRound ==> c.outputs[k] == env.inputs[k]
  }

  // ---------------------------------------------------------------------------
  // The invariant

  /** The options under which delivery is guaranteed. */
  predicate Safe(o: Options, primed: bool, weak: bool) {
    && (weak ==> o.completion == ChannelFence || o.mode == WriteWithNotify)
    && (primed ==> o.mode == Read)
  }

  /** The index of the next kernel step of the sender; negative before the host primed. */
  function SIdx(env: Env, c: Config): int { c.sPc - Lead(env) }
  function RIdx(env: Env, c: Config): int { c.rPc - Lead(env) }

  /** The kernel index from which on the ready notify of this round has been issued. */
  function SignalIdx(o: Options): nat {
    match o.mode
    case Read => 2
    case Write => 3 + |Fences(o)|
    case WriteWithNotify => 2
  }

  predicate Positions(o: Options, env: Env, c: Config) {
    && c.sRound <= |env.inputs| && c.rRound <= |env.inputs| == |c.outputs|
    && (if c.sRound == |env.inputs| then c.sPc == 0 else c.sPc < Length(Send, o, env))
    && (if c.rRound == |env.inputs| then c.rPc == 0 else c.rPc < Length(Recv, o, env))
    && c.sRound <= c.rRound <= c.sRound + 1
  }

  /** The receiver has consumed the ready notify of its round. */
  predicate Took(env: Env, c: Config) { RIdx(env, c) >= 1 }

  predicate Tokens(o: Options, env: Env, c: Config) {
    && !c.overrun
    && c.done == (c.rRound == c.sRound + 1)
    && (c.rRound == c.sRound + 1 ==> SIdx(env, c) >= SignalIdx(o) && !Took(env, c) && !c.ready && Quiet(c))
    && (Took(env, c) ==> SIdx(env, c) >= SignalIdx(o))
    && (c.rRound == c.sRound ==>
          c.ready == (SIdx(env, c) >= SignalIdx(o) && !Took(env, c) && Quiet(c)))
  }

  /** Exactly one operation is in flight: the one of this round. */
  predicate FlightOf(env: Env, c: Config, kind: OpKind) {
    && c.rRound == c.sRound < |env.inputs|
    && ((c.posted == [Op(kind, c.sRound)] && c.landing == []) ||
        (c.posted == [] && c.landing == [Landing(Op(kind, c.sRound), env.inputs[c.sRound])]))
  }

  /** What may be in flight, by transfer mode. */
  predicate Flight(o: Options, env: Env, c: Config) {
    Quiet(c) ||
    (env.weak &&
      match o.mode
      case Read =>
        RIdx(env, c) == 2 && o.completion == ChannelFence &&
        FlightOf(env, c, if o.recvPath == DirectOutput then OpReadOutput else OpReadBuffer)
      case Write => SIdx(env, c) == 2 && o.completion == ChannelFence && FlightOf(env, c, OpWrite)
      case WriteWithNotify => SIdx(env, c) >= 2 && !Took(env, c) && FlightOf(env, c, OpWriteNotify))
  }

  predicate Data(o: Options, env: Env, c: Config)
    requires Positions(o, env, c)
  {
    && (c.sRound < |env.inputs| && SIdx(env, c) >= 1 ==> c.sBuf == env.inputs[c.sRound])
    && (forall k :: 0 <= k < c.rRound ==> c.outputs[k] == env.inputs[k])
    && (c.sRound == c.rRound < |env.inputs| && Quiet(c) ==>
          var input := env.inputs[c.rRound];
          match o.mode
          case Read =>
            && (RIdx(env, c) >= 2 && o.recvPath == LocalBuffer ==> c.rBuf == input)
            && (RIdx(env, c) >= 2 && o.recvPath == DirectOutput ==> c.outputs[c.rRound] == input)
            && (o.recvPath == LocalBuffer && RIdx(env, c) >= 3 + |Fences(o)| ==> c.outputs[c.rRound] == input)
          case _ =>
            && (SIdx(env, c) >= 2 ==> c.rBuf == input)
            && (RIdx(env, c) >= 2 ==> c.outputs[c.rRound] == input))
  }

  predicate Inv(o: Options, env: Env, c: Config) {
    Positions(o, env, c) && Tokens(o, env, c) && Flight(o, env, c) && Data(o, env, c)
  }

  predicate Setting(o: Options, env: Env) {
    Receivable(o) && Safe(o, env.primed, env.weak)
  }

  lemma SendStepAt(o: Options, i: nat)
    requires i < |SendSteps(o)|
    ensures SendSteps(o)[i] ==
      if i == 0 then CopyInputToBuffer
      else if i == |SendSteps(o)| - 1 then WaitDone
      else if i == 1 then
        match o.mode {
          case Read => RecordReady
          case Write => WriteRemote
          case WriteWithNotify => WriteRemoteNotify
        }
      else if i == 2 && o.completion == ChannelFence then Fence
      else RecordReady
    ensures |SendSteps(o)| ==
      match o.mode case Read => 3 case Write => 4 + |Fences(o)| case WriteWithNotify => 3 + |Fences(o)|
  {
  }

  lemma InvSendRead(o: Options, env: Env, c: Config)
    requires o.mode == Read
    requires Setting(o, env) && Inv(o, env, c) && Enabled(o, env, c, StepSend)
    ensures Inv(o, env, Next(o, env, c, StepSend))
  {
    if SIdx(env, c) >= 0 {
      SendStepAt(o, SIdx(env, c));
    }
  }

  lemma PostAlone(posted: seq<Op>, op: Op)
    ensures posted == [] ==> posted + [op] == [op]
  {
  }

  lemma InvSendWrite(o: Options, env: Env, c: Config)
    requires o.mode == Write
    requires Setting(o, env) && Inv(o, env, c) && Enabled(o, env, c, StepSend)
    ensures Inv(o, env, Next(o, env, c, StepSend))
  {
    assert c.posted != [] ==> SendOp(c.posted[0]);
    assert c.landing != [] ==> SendOp(c.landing[0].op);
    PostAlone(c.posted, Op(if o.mode == Write then OpWrite else OpWriteNotify, c.sRound));
    SendStepAt(o, SIdx(env, c));
  }

  lemma InvSendWriteNotify(o: Options, env: Env, c: Config)
    requires o.mode == WriteWithNotify
    requires Setting(o, env) && Inv(o, env, c) && Enabled(o, env, c, StepSend)
    ensures Inv(o, env, Next(o, env, c, StepSend))
  {
    PostAlone(c.posted, Op(if o.mode == Write then OpWrite else OpWriteNotify, c.sRound));
    SendStepAt(o, SIdx(env, c));
  }

  lemma RecvStepAt(o: Options, i: nat)
    requires Receivable(o) && i < |RecvSteps(o)|
    ensures RecvSteps(o)[i] ==
      if i == 0 then WaitReady
      else if i == |RecvSteps(o)| - 1 then RecordDone
      else if o.mode != Read then CopyBufferToOutput
      else if i == 1 then (if o.recvPath == DirectOutput then ReadRemoteToOutput else ReadRemoteToBuffer)
      else if i == 2 && o.completion == ChannelFence then Fence
      else CopyBufferToOutput
    ensures |RecvSteps(o)| ==
      if o.mode != Read then 3 else (if o.recvPath == DirectOutput then 3 else 4) + |Fences(o)|
  {
  }

  lemma InvRecvRead(o: Options, env: Env, c: Config)
    requires o.mode == Read
    requires Setting(o, env) && Inv(o, env, c) && Enabled(o, env, c, StepRecv)
    ensures Inv(o, env, Next(o, env, c, StepRecv))
  {
    PostAlone(c.posted, Op(if o.recvPath == DirectOutput then OpReadOutput else OpReadBuffer, c.rRound));
    SendStepAt(o, 0);
    if RIdx(env, c) >= 0 {
      RecvStepAt(o, RIdx(env, c));
      assert c.posted != [] ==> !SendOp(c.posted[0]);
      assert c.landing != [] ==> !SendOp(c.landing[0].op);
    }
  }

  lemma InvRecvWrite(o: Options, env: Env, c: Config)
    requires o.mode != Read
    requires Setting(o, env) && Inv(o, env, c) && Enabled(o, env, c, StepRecv)
    ensures Inv(o, env, Next(o, env, c, StepRecv))
  {
    SendStepAt(o, 0);
    RecvStepAt(o, RIdx(env, c));
  }

  lemma InvFetch(o: Options, env: Env, c: Config, i: nat, scribble: Bytes)
    requires Setting(o, env) && Inv(o, env, c) && Enabled(o, env, c, Fetch(i, scribble))
    ensures Inv(o, env, Next(o, env, c, Fetch(i, scribble)))
  {
  }

  lemma InvLand(o: Options, env: Env, c: Config, i: nat)
    requires Setting(o, env) && Inv(o, env, c) && Enabled(o, env, c, Land(i))
    ensures Inv(o, env, Next(o, env, c, Land(i)))
  {
    SendStepAt(o, 0);
    RecvStepAt(o, 0);
  }

  lemma InvStep(o: Options, env: Env, c: Config, ev: Event)
    requires Setting(o, env) && Inv(o, env, c) && Enabled(o, env, c, ev)
    ensures Inv(o, env, Next(o, env, c, ev))
  {
    match ev
    case StepSend =>
      match o.mode {
        case Read => InvSendRead(o, env, c);
        case Write => InvSendWrite(o, env, c);
        case WriteWithNotify => InvSendWriteNotify(o, env, c);
      }
    case StepRecv => if o.mode == Read { InvRecvRead(o, env, c); } else { InvRecvWrite(o, env, c); }
    case Fetch(i, scribble) => InvFetch(o, env, c, i, scribble);
    case Land(i) => InvLand(o, env, c, i);
  }

  lemma {:induction false} RunInv(o: Options, env: Env, trace: seq<Config>)
    requires Setting(o, env) && IsRun(o, env, trace)
    ensures Inv(o, env, trace[|trace| - 1])
  {
    if |trace| == 1 {
      SendStepAt(o, 0);
      RecvStepAt(o, 0);
    } else {
      var before := trace[..|trace| - 1];
      RunInv(o, env, before);
      assert CanStep(o, env, trace[|trace| - 2], trace[|trace| - 1]);
      var ev :| Enabled(o, env, trace[|trace| - 2], ev) && trace[|trace| - 1] == Next(o, env, trace[|trace| - 2], ev);
      InvStep(o, env, trace[|trace| - 2], ev);
    }
  }

  // ---------------------------------------------------------------------------
  // Progress and termination

  lemma Progress(o: Options, env: Env, c: Config)
    requires Setting(o, env) && Inv(o, env, c) && !Finished(env, c)
    ensures exists ev :: Enabled(o, env, c, ev)
  {
    if !Quiet(c) {
      assert Enabled(o, env, c, if c.posted == [] then Land(0) else Fetch(0, []));
    } else if c.rRound == c.sRound + 1 {
      ProgressSend(o, env, c);
    } else if SIdx(env, c) < SignalIdx(o) {
      ProgressSend(o, env, c);
    } else {
      ProgressRecv(o, env, c);
    }
  }

  lemma ProgressSend(o: Options, env: Env, c: Config)
    requires Setting(o, env) && Inv(o, env, c) && Quiet(c) && c.sRound < |env.inputs|
    requires c.rRound == c.sRound + 1 || SIdx(env, c) < SignalIdx(o)
    ensures Enabled(o, env, c, StepSend)
  {
    if SIdx(env, c) >= 0 {
      SendStepAt(o, SIdx(env, c));
    }
  }

  lemma ProgressRecv(o: Options, env: Env, c: Config)
    requires Setting(o, env) && Inv(o, env, c) && Quiet(c) && c.rRound == c.sRound < |env.inputs|
    requires SIdx(env, c) >= SignalIdx(o)
    ensures Enabled(o, env, c, StepRecv)
  {
    if RIdx(env, c) >= 0 {
      RecvStepAt(o, RIdx(env, c));
    }
  }

  /** The positions every run keeps, whatever the options, for plans of these lengths. */
  predicate InRange(env: Env, sLength: nat, rLength: nat, c: Config) {
    && c.sRound <= |env.inputs| && c.rRound <= |env.inputs|
    && (if c.sRound == |env.inputs| then c.sPc == 0 else c.sPc < sLength)
    && (if c.rRound == |env.inputs| then c.rPc == 0 else c.rPc < rLength)
  }

  /** The plan steps of `rounds` rounds. */
  function Total(rounds: nat, length: nat): nat {
    if rounds == 0 then 0 else length + Total(rounds - 1, length)
  }

  lemma {:induction false} TotalIsProduct(rounds: nat, length: nat)
    ensures Total(rounds, length) == rounds * length
  {
    if rounds > 0 {
      TotalIsProduct(rounds - 1, length);
    }
  }

  /** What is left to do: three units per plan step, so that a posted operation can
      still be fetched and land. */
  function Work(env: Env, sLength: nat, rLength: nat, c: Config): nat
    requires InRange(env, sLength, rLength, c)
  {
    3 * (Total(|env.inputs| - c.sRound, sLength) - c.sPc) +
    3 * (Total(|env.inputs| - c.rRound, rLength) - c.rPc) + 2 * |c.posted| + |c.landing|
  }

  /** An instruction moves no program position and posts at most one operation. */
  lemma ExecuteKeeps(env: Env, c: Config, role: Role, round: nat, instr: Instr)
    requires round < |env.inputs|
    ensures SamePlace(c, Execute(env, c, role, round, instr))
  {
    match instr
    case Prime =>
    case Do(step) =>
      match step {
        case CopyInputToBuffer =>
        case RecordReady =>
        case WaitReady =>
        case WaitDone =>
        case RecordDone =>
        case CopyBufferToOutput =>
        case Fence =>
        case _ =>
      }
  }

  predicate SamePlace(c: Config, e: Config) {
    && e.sRound == c.sRound && e.sPc == c.sPc && e.rRound == c.rRound && e.rPc == c.rPc
    && e.landing == c.landing && |e.posted| <= |c.posted| + 1
  }

  lemma {:induction false} SendDecreases(env: Env, sLength: nat, rLength: nat, c: Config, e: Config)
    requires InRange(env, sLength, rLength, c) && c.sRound < |env.inputs|
    requires SamePlace(c, e)
    ensures InRange(env, sLength, rLength, AdvanceSend(sLength, e))
    ensures Work(env, sLength, rLength, AdvanceSend(sLength, e)) < Work(env, sLength, rLength, c)
  {
  }

  lemma {:induction false} RecvDecreases(env: Env, sLength: nat, rLength: nat, c: Config, e: Config)
    requires InRange(env, sLength, rLength, c) && c.rRound < |env.inputs|
    requires SamePlace(c, e)
    ensures InRange(env, sLength, rLength, AdvanceRecv(rLength, e))
    ensures Work(env, sLength, rLength, AdvanceRecv(rLength, e)) < Work(env, sLength, rLength, c)
  {
  }

  lemma {:induction false} FlightDecreases(o: Options, env: Env, sLength: nat, rLength: nat, c: Config, ev: Event)
    requires ev.Fetch? || ev.Land?
    requires InRange(env, sLength, rLength, c) && Enabled(o, env, c, ev)
    ensures InRange(env, sLength, rLength, Next(o, env, c, ev))
    ensures Work(env, sLength, rLength, Next(o, env, c, ev)) < Work(env, sLength, rLength, c)
  {
  }

  lemma {:induction false} WorkDecreases(o: Options, env: Env, sLength: nat, rLength: nat, c: Config, ev: Event)
    requires sLength == Length(Send, o, env) && rLength == Length(Recv, o, env)
    requires InRange(env, sLength, rLength, c) && Enabled(o, env, c, ev)
    ensures InRange(env, sLength, rLength, Next(o, env, c, ev))
    ensures Work(env, sLength, rLength, Next(o, env, c, ev)) < Work(env, sLength, rLength, c)
  {
    match ev
    case StepSend =>
      var instr := InstrAt(Send, o, env, c.sPc);
      var e := Execute(env, c, Send, c.sRound, instr);
      assert Next(o, env, c, ev) == AdvanceSend(sLength, e);
      ExecuteKeeps(env, c, Send, c.sRound, instr);
      SendDecreases(env, sLength, rLength, c, e);
    case StepRecv =>
      var instr := InstrAt(Recv, o, env, c.rPc);
      var e := Execute(env, c, Recv, c.rRound, instr);
      assert Next(o, env, c, ev) == AdvanceRecv(rLength, e);
      ExecuteKeeps(env, c, Recv, c.rRound, instr);
      RecvDecreases(env, sLength, rLength, c, e);
    case _ => FlightDecreases(o, env, sLength, rLength, c, ev);
  }

  lemma {:induction false} RunWork(o: Options, env: Env, sLength: nat, rLength: nat, trace: seq<Config>)
    requires sLength == Length(Send, o, env) && rLength == Length(Recv, o, env)
    requires IsRun(o, env, trace)
    ensures InRange(env, sLength, rLength, trace[|trace| - 1])
    ensures |trace| - 1 + Work(env, sLength, rLength, trace[|trace| - 1]) <=
            3 * (Total(|env.inputs|, sLength) + Total(|env.inputs|, rLength))
  {
    if |trace| > 1 {
      var c := trace[|trace| - 2];
      RunWork(o, env, sLength, rLength, trace[..|trace| - 1]);
      assert CanStep(o, env, c, trace[|trace| - 1]);
      var ev :| Enabled(o, env, c, ev) && trace[|trace| - 1] == Next(o, env, c, ev);
      WorkDecreases(o, env, sLength, rLength, c, ev);
    }
  }

  lemma RoundCost(n: nat, s: nat, r: nat)
    ensures 3 * (n * s + n * r) == 3 * n * (s + r)
  {
  }

  // ---------------------------------------------------------------------------
  // Main theorems

  /** Every run ends: no run of any plan pair has more configurations than this. */
  lemma RunsTerminate(o: Options, env: Env, trace: seq<Config>)
    requires IsRun(o, env, trace)
    ensures |trace| <= 1 + 3 * |env.inputs| * (2 * Lead(env) + |SendSteps(o)| + |RecvSteps(o)|)
  {
    var n, s, r := |env.inputs|, Length(Send, o, env), Length(Recv, o, env);
    RunWork(o, env, s, r, trace);
    TotalIsProduct(n, s);
    TotalIsProduct(n, r);
    RoundCost(n, s, r);
  }

  /** Under safe options every run is correct at every moment, is never stuck before both
      ranks are through, and has then delivered every input. */
  lemma SafeRunsDeliver(o: Options, env: Env, trace: seq<Config>)
    requires Receivable(o) && Safe(o, env.primed, env.weak) && IsRun(o, env, trace)
    ensures var c := trace[|trace| - 1];
            && Correct(env, c)
            && (Finished(env, c) <==> !exists ev :: Enabled(o, env, c, ev))
            && (Finished(env, c) ==> c.outputs == env.inputs && !c.ready && !c.done)
  {
    RunInv(o, env, trace);
    var c := trace[|trace| - 1];
    if !Finished(env, c) {
      Progress(o, env, c);
    }
  }

  // ---------------------------------------------------------------------------
  // The condition is exact

  /** Delivery in every run, for every payload and every prior buffer content. */
  ghost predicate AlwaysDelivers(o: Options, primed: bool, weak: bool) {
    forall env: Env, trace: seq<Config> ::
      env.primed == primed && env.weak == weak && IsRun(o, env, trace) ==> Correct(env, trace[|trace| - 1])
  }

  function Witness(primed: bool, weak: bool): Env { Env(weak, primed, [[1]], [2], [2]) }

  const START := Config(0, 0, 0, 0, [0], [0], false, false, [], [], [[0]], false)

  lemma Extend(o: Options, env: Env, trace: seq<Config>, ev: Event) returns (longer: seq<Config>)
    requires IsRun(o, env, trace) && Enabled(o, env, trace[|trace| - 1], ev)
    ensures IsRun(o, env, longer) && longer[|longer| - 1] == Next(o, env, trace[|trace| - 1], ev)
  {
    longer := trace + [Next(o, env, trace[|trace| - 1], ev)];
    assert CanStep(o, env, trace[|trace| - 1], longer[|longer| - 1]);
    forall i | 0 <= i < |longer| - 1
      ensures CanStep(o, env, longer[i], longer[i + 1])
    {
      if i < |trace| - 1 {
        assert CanStep(o, env, trace[i], trace[i + 1]);
      }
    }
  }

  /** The sender up to the point where only the write is left to post. */
  lemma SenderStages(o: Options, env: Env) returns (trace: seq<Config>)
    requires env == Witness(env.primed, env.weak)
    ensures IsRun(o, env, trace)
    ensures trace[|trace| - 1] == START.(sPc := Lead(env) + 1, sBuf := [1])
  {
    SendStepAt(o, 0);
    trace := [START];
    if env.primed {
      trace := Extend(o, env, trace, StepSend);
      assert trace[|trace| - 1] == START.(sPc := 1, sBuf := [2]);
    }
    trace := Extend(o, env, trace, StepSend);
  }

  /** The receiver runs its whole round; what it copies out is not the input. */
  lemma StaleReceive(o: Options, env: Env, before: seq<Config>) returns (trace: seq<Config>)
    requires o.mode != Read && env == Witness(env.primed, env.weak) && IsRun(o, env, before)
    requires var c := before[|before| - 1];
             c.rRound == 0 && c.rPc == 0 && c.ready && c.outputs == [[0]] && (env.primed || c.rBuf == [0])
    ensures IsRun(o, env, trace) && !Correct(env, trace[|trace| - 1])
  {
    trace := before;
    if env.primed {
      trace := Extend(o, env, trace, StepRecv);
    }
    ghost var c := trace[|trace| - 1];
    assert c.rRound == 0 && c.rPc == Lead(env) && c.ready && c.outputs == [[0]] && (c.rBuf == [0] || c.rBuf == [2]);
    trace := Extend(o, env, trace, StepRecv);
    c := trace[|trace| - 1];
    assert c.rRound == 0 && c.rPc == Lead(env) + 1 && c.outputs == [[0]] && (c.rBuf == [0] || c.rBuf == [2]);
    trace := Extend(o, env, trace, StepRecv);
    c := trace[|trace| - 1];
    assert c.rRound == 0 && c.rPc == Lead(env) + 2 && (c.outputs == [[0]] || c.outputs == [[2]]);
    trace := Extend(o, env, trace, StepRecv);
    c := trace[|trace| - 1];
    assert c.rRound == 1 && c.outputs[0][0] != 1;
  }

  /** The receiver has posted its read and nothing of it has arrived. */
  lemma ReadIsPosted(o: Options, env: Env) returns (trace: seq<Config>)
    requires o.mode == Read && o.completion == OrderedNotify
    requires env == Witness(env.primed, true)
    ensures IsRun(o, env, trace)
    ensures var c := trace[|trace| - 1];
            c.rRound == 0 && c.rPc == Lead(env) + 2 && c.outputs == [[0]] && (c.rBuf == [0] || c.rBuf == [2])
  {
    trace := SenderStages(o, env);
    SendStepAt(o, 1);
    trace := Extend(o, env, trace, StepSend);
    if env.primed {
      trace := Extend(o, env, trace, StepRecv);
    }
    ghost var c := trace[|trace| - 1];
    assert c.rRound == 0 && c.rPc == Lead(env) && c.ready && c.outputs == [[0]] && (c.rBuf == [0] || c.rBuf == [2]);
    RecvStepAt(o, 0);
    trace := Extend(o, env, trace, StepRecv);
    RecvStepAt(o, 1);
    trace := Extend(o, env, trace, StepRecv);
  }

  /** A read that lands only after the receiver has gone on. */
  lemma LateRead(o: Options, env: Env) returns (trace: seq<Config>)
    requires o.mode == Read && o.completion == OrderedNotify
    requires env == Witness(env.primed, true)
    ensures IsRun(o, env, trace) && !Correct(env, trace[|trace| - 1])
  {
    trace := ReadIsPosted(o, env);
    ghost var c;
    RecvStepAt(o, 2);
    trace := Extend(o, env, trace, StepRecv);
    c := trace[|trace| - 1];
    if o.recvPath == LocalBuffer {
      assert c.rRound == 0 && c.rPc == Lead(env) + 3 && (c.outputs == [[0]] || c.outputs == [[2]]);
      RecvStepAt(o, 3);
      trace := Extend(o, env, trace, StepRecv);
      c := trace[|trace| - 1];
    }
    assert c.rRound == 1 && c.outputs[0][0] != 1;
  }

  /** A write that is overtaken by its separate ready notify. */
  lemma LateWrite(o: Options, env: Env) returns (trace: seq<Config>)
    requires o.mode == Write && o.completion == OrderedNotify
    requires env == Witness(env.primed, true)
    ensures IsRun(o, env, trace) && !Correct(env, trace[|trace| - 1])
  {
    trace := SenderStages(o, env);
    SendStepAt(o, 1);
    trace := Extend(o, env, trace, StepSend);
    SendStepAt(o, 2);
    trace := Extend(o, env, trace, StepSend);
    trace := StaleReceive(o, env, trace);
  }

  /** The sender's write has landed before the receiver has done anything. */
  lemma WriteHasLanded(o: Options, env: Env) returns (trace: seq<Config>)
    requires o.mode != Read
    requires env == Witness(true, env.weak)
    ensures IsRun(o, env, trace)
    ensures var c := trace[|trace| - 1];
            Quiet(c) && c.sPc == 3 && c.sRound == 0 && c.rRound == 0 && c.rPc == 0 && c.outputs == [[0]] &&
            (o.mode == WriteWithNotify ==> c.ready)
  {
    trace := SenderStages(o, env);
    SendStepAt(o, 1);
    trace := Extend(o, env, trace, StepSend);
    ghost var c := trace[|trace| - 1];
    if env.weak {
      assert |c.posted| == 1 && c.landing == [];
      trace := Extend(o, env, trace, Fetch(0, [0]));
      trace := Extend(o, env, trace, Land(0));
      c := trace[|trace| - 1];
    }
  }

  /** The write lands before the peer's host primes the same buffer. */
  lemma PrimeClobbers(o: Options, env: Env) returns (trace: seq<Config>)
    requires o.mode != Read
    requires env == Witness(true, env.weak)
    ensures IsRun(o, env, trace) && !Correct(env, trace[|trace| - 1])
  {
    trace := WriteHasLanded(o, env);
    if o.mode == Write {
      SendStepAt(o, 2);
      if o.completion == ChannelFence {
        trace := Extend(o, env, trace, StepSend);
        SendStepAt(o, 3);
      }
      trace := Extend(o, env, trace, StepSend);
    }
    trace := StaleReceive(o, env, trace);
  }

  /** The exact condition: on every channel and with or without host priming, the pair
      copy delivers in every run if and only if data cannot be overtaken (a fence, or the
      notify fused with the write) and priming only meets buffers the peer does not write. */
  lemma DeliveryIsExact(o: Options, primed: bool, weak: bool)
    requires Receivable(o)
    ensures AlwaysDelivers(o, primed, weak) <==> Safe(o, primed, weak)
  {
    if Safe(o, primed, weak) {
      forall env: Env, trace: seq<Config> | env.primed == primed && env.weak == weak && IsRun(o, env, trace)
        ensures Correct(env, trace[|trace| - 1])
      {
        SafeRunsDeliver(o, env, trace);
      }
    } else {
      var env := Witness(primed, weak);
      var trace: seq<Config>;
      if primed && o.mode != Read {
        trace := PrimeClobbers(o, env);
      } else if o.mode == Read {
        trace := LateRead(o, env);
      } else {
        trace := LateWrite(o, env);
      }
    }
  }
}
