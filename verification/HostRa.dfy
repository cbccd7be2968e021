/** The Host-RA storage session: it acquires network, device and RDMA resources one foreign
    call at a time, runs requests and cleans up. Every foreign call may fail at any time. */
module HostRa {
  import opened Common
  import opened ResourceLog
  import StorageServer

  datatype SessionState = Created | LocalResourcesReady | Bootstrapped | Connected | RequestInFlight | Closed | Failed

  datatype Resource =
    | Library | Network | Ra | Rdev | Qp
    | CommandBuffer | CompletionBuffer | CommandMr | CompletionMr | PayloadMr
    | Socket

  /** What must be alive for a resource to be used and released. */
  function Needs(r: Resource): set<Resource> {
    match r
    case Library => {}
    case Network => {Library}
    case Ra => {Network}
    case Rdev => {Ra}
    case Qp => {Rdev}
    case CommandBuffer => {Library}
    case CompletionBuffer => {Library}
    case CommandMr => {Rdev, CommandBuffer}
    case CompletionMr => {Rdev, CompletionBuffer}
    case PayloadMr => {Rdev}
    case Socket => {}
  }

  /** The resources that need `r`. */
  function Dependents(r: Resource): set<Resource> {
    match r
    case Library => {Network, CommandBuffer, CompletionBuffer}
    case Network => {Ra}
    case Ra => {Rdev}
    case Rdev => {Qp, CommandMr, CompletionMr, PayloadMr}
    case Qp => {}
    case CommandBuffer => {CommandMr}
    case CompletionBuffer => {CompletionMr}
    case CommandMr => {}
    case CompletionMr => {}
    case PayloadMr => {}
    case Socket => {}
  }

  lemma DependentsNeed(r: Resource, d: Resource)
    ensures r in Needs(d) <==> d in Dependents(r)
  {
  }

  /** What a foreign call that returns a handle can do: succeed, claim success without giving
      a handle, or fail. A call that does not succeed leaves the handle alone. */
  datatype Outcome = Made | NoHandle | CallFailed

  datatype ControlMode = Tcp | NpuRa | UnknownMode
  datatype Operation = Read | Write | UnknownOperation

  /** How each foreign call of an open turns out, and what the server answers. */
  datatype OpenScript = OpenScript(
    mtuOk: bool, push: bool,
    loads: bool, selects: bool, boots: bool, inits: bool,
    address: bool, device: Outcome, pair: Outcome,
    commandAlloc: bool, commandReg: Outcome, completionAlloc: bool, completionReg: Outcome,
    connects: bool, sends: bool, accepted: bool, qpModified: bool,
    capacity: nat, maxTransfer: nat, writable: bool)

  predicate ControlWorks(s: OpenScript) {
    s.commandAlloc && s.commandReg == Made && s.completionAlloc && s.completionReg == Made
  }

  /** Every local resource can be acquired. */
  predicate LocalWorks(mode: ControlMode, s: OpenScript) {
    && s.loads && s.selects && s.boots && s.inits && s.address && s.device == Made && s.pair == Made
    && (mode == NpuRa ==> ControlWorks(s))
  }

  predicate HandshakeWorks(s: OpenScript) { s.connects && s.sends && s.accepted && s.qpModified }

  datatype Completion = Completion(requestId: nat, status: nat, bytes: nat)

  /** One poll of the completion buffer in device memory. */
  datatype Poll = CopyFailed | Undecodable | Decoded(completion: Completion)

  /** How each foreign call of a request turns out. */
  datatype SubmitScript = SubmitScript(
    register: Outcome, sends: bool, received: Option<Completion>, posts: bool, polls: seq<Poll>, deregisters: bool)

  const NO_COMPLETION := Completion(0, 0, 0)

  /** The completion a poll sequence ends with: the first one that decodes to the request, up
      to a failed copy. None if the copy failed first. */
  function Polled(polls: seq<Poll>, requestId: nat): Option<Completion> {
    if polls == [] then Some(NO_COMPLETION)
    else
      match polls[0]
      case CopyFailed => None
      case Undecodable => Polled(polls[1..], requestId)
      case Decoded(c) => if c.requestId == requestId then Some(c) else Polled(polls[1..], requestId)
  }

  /** A poll that does not end the polling: nothing that decodes, or another request's. */
  predicate Foreign(poll: Poll, requestId: nat) {
    poll == Undecodable || (poll.Decoded? && poll.completion.requestId != requestId)
  }

  /** Behind any number of foreign polls the request's completion is found, a failed copy ends
      the polling without one, and running out of polls leaves the empty completion; and these
      are all the ways polling can end. */
  lemma {:induction false} PolledExactly(polls: seq<Poll>, requestId: nat, n: nat)
    requires n <= |polls| && forall i :: 0 <= i < n ==> Foreign(polls[i], requestId)
    requires n == |polls| || !Foreign(polls[n], requestId)
    ensures Polled(polls, requestId) ==
            if n == |polls| then Some(Completion(0, 0, 0))
            else if polls[n].Decoded? then Some(polls[n].completion)
            else None
  {
    if n > 0 {
      forall i | 0 <= i < n - 1
        ensures Foreign(polls[1..][i], requestId)
      {
        assert polls[1..][i] == polls[i + 1];
      }
      PolledExactly(polls[1..], requestId, n - 1);
    }
  }

  /** The command/completion exchange as a whole. */
  function Exchange(mode: ControlMode, s: SubmitScript, requestId: nat): Option<Completion> {
    if mode == Tcp then (if s.sends then s.received else None)
    else if s.posts then Polled(s.polls, requestId) else None
  }

  /** The exchange brings the request's own success exactly if: over TCP, the command is sent
      and that completion comes back; through device memory, the command is posted and that
      completion is polled behind nothing but foreign polls. */
  lemma ExchangeSucceeds(mode: ControlMode, s: SubmitScript, k: Completion)
    requires k.requestId != 0
    ensures Exchange(mode, s, k.requestId) == Some(k) <==>
            if mode == Tcp then s.sends && s.received == Some(k)
            else s.posts && exists n :: PolledAt(s.polls, k, n)
  {
    if mode != Tcp {
      var n := FirstOwn(s.polls, k.requestId);
      PolledExactly(s.polls, k.requestId, n);
      if n < |s.polls| && s.polls[n] == Decoded(k) {
        assert PolledAt(s.polls, k, n);
      }
      forall m | PolledAt(s.polls, k, m)
        ensures m == n
      {
        PolledExactly(s.polls, k.requestId, m);
      }
    }
  }

  predicate PolledAt(polls: seq<Poll>, k: Completion, n: nat) {
    n < |polls| && polls[n] == Decoded(k) && forall i :: 0 <= i < n ==> Foreign(polls[i], k.requestId)
  }

  /** The first poll that ends the polling. */
  function FirstOwn(polls: seq<Poll>, requestId: nat): (n: nat)
    ensures n <= |polls| && (forall i :: 0 <= i < n ==> Foreign(polls[i], requestId))
    ensures n < |polls| ==> !Foreign(polls[n], requestId)
  {
    if polls == [] || !Foreign(polls[0], requestId) then 0 else 1 + FirstOwn(polls[1..], requestId)
  }

  class Session {
    var state: SessionState
    var activeRequest: nat
    var mode: ControlMode
    var capabilityLoaded: bool
    var namespaceBytes: nat
    var maxTransfer: nat
    var writable: bool
    /** The resources whose handle is set. */
    var held: set<Resource>
    /** Every acquisition and release so far. */
    ghost var log: seq<Event<Resource>>

    /** The log is in order and ends with what the handles say. */
    ghost predicate Orderly()
      reads this
    {
      Replay(log, Needs) == Some(held) && PayloadMr !in held
    }

    /** Between calls: orderly, no request in flight, and nothing held before the first open
        or after the last close. */
    ghost predicate Valid()
      reads this
    {
      && Orderly() && state != RequestInFlight
      && (state == Created || state == Closed ==> held == {})
      && (state == Connected ==> Rdev in held)
    }

    constructor ()
      ensures Valid() && state == Created && log == []
    {
      state, activeRequest, mode, capabilityLoaded := Created, 0, Tcp, false;
      namespaceBytes, maxTransfer, writable := 0, 0, false;
      held := {};
      log := [];
    }

    // -------------------------------------------------------------------------
    // One resource

    method Take(r: Resource)
      requires Replay(log, Needs) == Some(held) && r !in held && Needs(r) <= held
      modifies this`held, this`log
      ensures Replay(log, Needs) == Some(held) && held == old(held) + {r} && log == old(log) + [Acquire(r)]
    {
      ReplayAppend(log, Acquire(r), Needs);
      log := log + [Acquire(r)];
      held := held + {r};
    }

    method Give(r: Resource)
      requires Replay(log, Needs) == Some(held) && r in held && Dependents(r) !! held
      modifies this`held, this`log
      ensures Replay(log, Needs) == Some(held) && held == old(held) - {r} && log == old(log) + [Release(r)]
    {
      forall d | d in held
        ensures r !in Needs(d)
      {
        DependentsNeed(r, d);
      }
      ReplayAppend(log, Release(r), Needs);
      log := log + [Release(r)];
      held := held - {r};
    }

    /** Releases a resource if its handle is set, and clears the handle. */
    method Drop(r: Resource)
      requires Replay(log, Needs) == Some(held) && Dependents(r) !! held
      modifies this`held, this`log
      ensures Replay(log, Needs) == Some(held) && held == old(held) - {r} && old(log) <= log
    {
      if r in held {
        Give(r);
      }
    }

    // -------------------------------------------------------------------------
    // Cleanup and failure

    method DropControl()
      requires Orderly()
      modifies this`held, this`log
      ensures Orderly() && old(log) <= log
      ensures held == old(held) - {Socket, CompletionMr, CommandMr, CompletionBuffer, CommandBuffer}
    {
      Drop(Socket);
      Drop(CompletionMr);
      Drop(CommandMr);
      Drop(CompletionBuffer);
      Drop(CommandBuffer);
    }

    method DropTransport()
      requires Orderly() && held <= {Library, Network, Ra, Rdev, Qp}
      modifies this`held, this`log
      ensures Orderly() && held == {} && old(log) <= log
    {
      Drop(Qp);
      Drop(Rdev);
      Drop(Ra);
      Drop(Network);
      Drop(Library);
    }

    /** Releases everything that is held, dependents first. */
    method Cleanup()
      requires Orderly()
      modifies this`held, this`log
      ensures Orderly() && held == {} && old(log) <= log
    {
      DropControl();
      forall r | r in held
        ensures r in {Library, Network, Ra, Rdev, Qp}
      {
        match r
        case Library =>
        case Network =>
        case Ra =>
        case Rdev =>
        case Qp =>
        case CommandBuffer =>
        case CompletionBuffer =>
        case CommandMr =>
        case CompletionMr =>
        case PayloadMr =>
        case Socket =>
      }
      DropTransport();
    }

    method LifecycleFail()
      modifies this`state, this`activeRequest
      ensures state == if old(state) == Closed then Closed else Failed
    {
      if state != Closed {
        activeRequest := 0;
        state := Failed;
      }
    }

    method Fail() returns (ok: bool)
      requires Orderly() && state != Closed
      modifies this`state, this`activeRequest, this`held, this`log
      ensures Valid() && !ok && state == Failed && held == {} && old(log) <= log
    {
      LifecycleFail();
      Cleanup();
      ok := false;
    }

    // -------------------------------------------------------------------------
    // Open

    method AcquireNetwork(s: OpenScript) returns (ok: bool)
      requires Orderly() && held == {}
      modifies this`held, this`log, this`capabilityLoaded
      ensures Orderly() && old(log) <= log && (ok ==> held == {Library, Network, Ra})
      ensures ok <==> s.loads && s.selects && s.boots && s.inits
    {
      if !s.loads {
        return false;
      }
      Take(Library);
      capabilityLoaded := true;
      if !s.selects || !s.boots {
        return false;
      }
      Take(Network);
      if !s.inits {
        return false;
      }
      Take(Ra);
      return true;
    }

    /** The local resources, in order; stops at the first failure. */
    method AcquireLocal(s: OpenScript) returns (ok: bool)
      requires Orderly() && held == {}
      modifies this`held, this`log, this`capabilityLoaded
      ensures Orderly() && old(log) <= log && (ok ==> Rdev in held && Qp in held && Socket !in held)
      ensures ok <==> LocalWorks(mode, s)
    {
      ok := AcquireNetwork(s);
      if !ok || !s.address || s.device != Made {
        return false;
      }
      Take(Rdev);
      if s.pair != Made {
        return false;
      }
      Take(Qp);
      if mode == NpuRa {
        ok := AcquireControl(s);
        return;
      }
      return true;
    }

    /** The command and completion buffers of NPU command posting. */
    method AcquireControl(s: OpenScript) returns (ok: bool)
      requires Orderly() && held == {Library, Network, Ra, Rdev, Qp}
      modifies this`held, this`log
      ensures Orderly() && old(log) <= log && Rdev in held && Qp in held && Socket !in held
      ensures ok <==> ControlWorks(s)
    {
      if !s.commandAlloc {
        return false;
      }
      Take(CommandBuffer);
      if s.commandReg != Made {
        return false;
      }
      Take(CommandMr);
      if !s.completionAlloc {
        return false;
      }
      Take(CompletionBuffer);
      if s.completionReg != Made {
        return false;
      }
      Take(CompletionMr);
      return true;
    }

    /** Opening connects the session exactly when every call on the way works, and otherwise
        releases everything it had acquired. */
    method Open(requested: ControlMode, s: OpenScript) returns (ok: bool)
      requires Valid()
      modifies this
      ensures Valid() && old(log) <= log
      ensures old(state) != Created ==> !ok && state == old(state) && held == old(held) && log == old(log)
      ensures old(state) == Created ==> if ok then state == Connected else state == Failed && held == {}
      ensures old(state) == Created ==>
                (ok <==> s.mtuOk && requested != UnknownMode && s.push && LocalWorks(requested, s) && HandshakeWorks(s))
      ensures ok ==> namespaceBytes == s.capacity && maxTransfer == s.maxTransfer && writable == s.writable
    {
      if state != Created {
        return false;
      }
      mode := requested;
      if !s.mtuOk || mode == UnknownMode || !s.push {
        ok := Fail();
        return;
      }
      ok := AcquireLocal(s);
      if !ok {
        ok := Fail();
        return;
      }
      ok := Connect(s);
    }

    /** The control connection and the handshake over it. */
    method Connect(s: OpenScript) returns (ok: bool)
      requires Orderly() && state == Created && Rdev in held && Socket !in held
      modifies this
      ensures Valid() && old(log) <= log && mode == old(mode)
      ensures if ok then state == Connected else state == Failed && held == {}
      ensures ok <==> HandshakeWorks(s)
      ensures ok ==> namespaceBytes == s.capacity && maxTransfer == s.maxTransfer && writable == s.writable
    {
      state := LocalResourcesReady;
      if !s.connects {
        ok := Fail();
        return;
      }
      Take(Socket);
      if !s.sends || !s.accepted {
        ok := Fail();
        return;
      }
      state := Bootstrapped;
      if !s.qpModified {
        ok := Fail();
        return;
      }
      namespaceBytes, maxTransfer, writable := s.capacity, s.maxTransfer, s.writable;
      state := Connected;
      return true;
    }

    // -------------------------------------------------------------------------
    // Requests

    method BeginRequest(requestId: nat) returns (ok: bool)
      modifies this`state, this`activeRequest
      ensures ok == (old(state) == Connected && requestId != 0)
      ensures if ok then state == RequestInFlight && activeRequest == requestId
              else state == old(state) && activeRequest == old(activeRequest)
    {
      ok := state == Connected && requestId != 0;
      if ok {
        activeRequest := requestId;
        state := RequestInFlight;
      }
    }

    method CompleteRequest(requestId: nat) returns (ok: bool)
      modifies this`state, this`activeRequest
      ensures ok == (old(state) == RequestInFlight && requestId == old(activeRequest))
      ensures if ok then state == Connected && activeRequest == 0
              else state == old(state) && activeRequest == old(activeRequest)
    {
      ok := state == RequestInFlight && requestId == activeRequest;
      if ok {
        activeRequest := 0;
        state := Connected;
      }
    }

    /** Polls device memory until the request's completion shows up, a copy fails or time is up. */
    method PollCompletion(polls: seq<Poll>, requestId: nat) returns (completion: Option<Completion>)
      ensures completion == Polled(polls, requestId)
    {
      var i := 0;
      while i < |polls|
        invariant 0 <= i <= |polls| && Polled(polls, requestId) == Polled(polls[i..], requestId)
      {
        match polls[i] {
          case CopyFailed =>
            return None;
          case Undecodable =>
          case Decoded(c) =>
            if c.requestId == requestId {
              return Some(c);
            }
        }
        assert polls[i..][1..] == polls[i + 1..];
        i := i + 1;
      }
      return Some(NO_COMPLETION);
    }

    /** The client's checks of a request against the session it opened. */
    predicate Admissible(operation: Operation, hasBuffer: bool, offset: nat, length: nat)
      reads this
    {
      hasBuffer && operation != UnknownOperation &&
        StorageServer.ClientChecks(namespaceBytes, maxTransfer, offset, length)
    }

    /** Sends the command and waits for its completion. */
    method Converse(requestId: nat, s: SubmitScript) returns (completion: Option<Completion>)
      ensures completion == Exchange(mode, s, requestId)
    {
      if mode == Tcp {
        return if s.sends then s.received else None;
      }
      if !s.posts {
        return None;
      }
      completion := PollCompletion(s.polls, requestId);
    }

    /** The exchange under a registered payload region. */
    method Transfer(requestId: nat, length: nat, s: SubmitScript) returns (ok: bool)
      requires Orderly() && Rdev in held
      modifies this`held, this`log
      ensures Orderly() && held == old(held) && log == old(log) + [Acquire(PayloadMr), Release(PayloadMr)]
      ensures ok <==> s.deregisters && Exchange(mode, s, requestId) == Some(Completion(requestId, 0, length))
    {
      Take(PayloadMr);
      var completion := Converse(requestId, s);
      ok := completion.Some? && completion.value.requestId == requestId &&
            completion.value.status == 0 && completion.value.bytes == length;
      Give(PayloadMr);
      if !s.deregisters {
        ok := false;
      }
    }

    /** A request. The payload region is registered only for an admissible request on a
        connected session, and once registered it is deregistered on every path. */
    method SubmitAndWait(
      operation: Operation, requestId: nat, hasBuffer: bool, offset: nat, length: nat, s: SubmitScript)
      returns (ok: bool, bytes: nat)
      requires Valid()
      modifies this`state, this`activeRequest, this`held, this`log
      ensures Valid() && held == old(held)
      ensures log == old(log) || log == old(log) + [Acquire(PayloadMr), Release(PayloadMr)]
      ensures log != old(log) <==>
              && hasBuffer && operation != UnknownOperation && length != 0 && length <= maxTransfer
              && offset + length <= namespaceBytes && old(state) == Connected && requestId != 0
              && (operation == Write ==> writable) && s.register == Made
      ensures ok <==>
              log != old(log) && s.deregisters && Exchange(mode, s, requestId) == Some(Completion(requestId, 0, length))
      ensures ok <==>
              && log != old(log) && s.deregisters
              && if mode == Tcp then s.sends && s.received == Some(Completion(requestId, 0, length))
                 else s.posts && exists n :: PolledAt(s.polls, Completion(requestId, 0, length), n)
      ensures ok ==> bytes == length && state == Connected
      ensures !ok ==> state == Failed || state == old(state)
    {
      bytes := 0;
      if !Admissible(operation, hasBuffer, offset, length) {
        return false, 0;
      }
      var begun := BeginRequest(requestId);
      if !begun {
        return false, 0;
      }
      if operation == Write && !writable {
        var _ := CompleteRequest(requestId);
        return false, 0;
      }
      if s.register != Made {
        LifecycleFail();
        return false, 0;
      }
      ok := Transfer(requestId, length, s);
      ExchangeSucceeds(mode, s, Completion(requestId, 0, length));
      if !ok {
        LifecycleFail();
        return false, 0;
      }
      var _ := CompleteRequest(requestId);
      bytes := length;
    }

    // -------------------------------------------------------------------------
    // Close

    /** Closing always succeeds between requests, and leaves nothing behind. */
    method Close() returns (ok: bool)
      requires Valid()
      modifies this`state, this`activeRequest, this`held, this`log
      ensures Valid() && ok && state == Closed && held == {} && old(log) <= log
    {
      if state == RequestInFlight {
        return false;
      }
      Cleanup();
      if state != Closed {
        activeRequest := 0;
        state := Closed;
      }
      return true;
    }
  }

  // ---------------------------------------------------------------------------
  // Whole sessions

  /** One call on a session. */
  datatype Call =
    | DoOpen(mode: ControlMode, open: OpenScript)
    | DoSubmit(operation: Operation, requestId: nat, hasBuffer: bool, offset: nat, length: nat, submit: SubmitScript)
    | DoClose

  /** Any calls in any order, with any failures, followed by the destructor: every resource
      that was acquired has been released, once, after everything that needed it. */
  method LifeOf(calls: seq<Call>) returns (session: Session)
    ensures fresh(session) && session.Valid() && session.held == {}
    ensures Replay(session.log, Needs) == Some({})
  {
    session := new Session();
    for i := 0 to |calls|
      invariant session.Valid() && fresh(session)
    {
      match calls[i] {
        case DoOpen(mode, s) =>
          var _ := session.Open(mode, s);
        case DoSubmit(operation, requestId, hasBuffer, offset, length, s) =>
          var _, _ := session.SubmitAndWait(operation, requestId, hasBuffer, offset, length, s);
        case DoClose =>
          var _ := session.Close();
      }
    }
    var _ := session.Close();
  }

  /** What an orderly log that ends empty says, spelled out. */
  lemma OrderlySession(log: seq<Event<Resource>>)
    requires Replay(log, Needs) == Some({})
    ensures forall i, r :: 0 <= i < |log| && log[i] == Release(r) ==>
              exists j :: 0 <= j < i && log[j] == Acquire(r) && forall k :: j < k < i ==> log[k] != Release(r)
    ensures forall i, j, r, d :: 0 <= j < i < |log| && log[i] == Release(r) && log[j] == Acquire(d) && r in Needs(d) ==>
              exists k :: j < k < i && log[k] == Release(d)
    ensures forall j, r :: 0 <= j < |log| && log[j] == Acquire(r) ==> exists k :: j < k < |log| && log[k] == Release(r)
  {
    forall i, r | 0 <= i < |log| && log[i] == Release(r)
      ensures exists j :: 0 <= j < i && log[j] == Acquire(r) && forall k :: j < k < i ==> log[k] != Release(r)
    {
      ReleasedAtMostOnce(log, i, r, Needs);
    }
    forall i, j, r, d | 0 <= j < i < |log| && log[i] == Release(r) && log[j] == Acquire(d) && r in Needs(d)
      ensures exists k :: j < k < i && log[k] == Release(d)
    {
      DependentsFirst(log, i, r, j, d, Needs);
    }
    forall j, r | 0 <= j < |log| && log[j] == Acquire(r)
      ensures exists k :: j < k < |log| && log[k] == Release(r)
    {
      NothingLeaks(log, j, r, Needs);
    }
  }
}
