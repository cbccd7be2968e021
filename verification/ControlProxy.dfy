/** The control proxy: it passes a session and its read commands through to an upstream
    server, answers everything else itself, and counts the control bytes it handles. */
module ControlProxy {
  import opened Common
  import opened Wire
  import opened StorageServer

  const SESSION_BYTES: nat := 64

  /** The part of a session request the proxy looks at. */
  datatype SessionRequest = SessionRequest(tcpControl: bool, pull: bool, endpoint: Bytes, window: Bytes)

  datatype SessionResponse = SessionResponse(status: nat, endpoint: Bytes, capacity: nat, maxTransfer: nat,
                                             capabilities: nat)

  datatype Stats = Stats(sessionBytes: nat, commandBytes: nat, completionBytes: nat, requests: nat, payloadBytes: nat)

  /** How the downstream command stream ends. */
  datatype Ending = PeerClosed | ReadError

  /** An upstream server: it accepts a session or not, and for each command it receives moves
      to a new state and sends a completion, or none if the connection breaks. */
  datatype Upstream<!S> = Upstream(
    accept: (S, SessionRequest) -> (S, Option<SessionResponse>),
    step: (S, Command) -> (S, Option<Completion>))

  /** Sets bit 2, control-proxy-used. */
  function MarkProxied(capabilities: nat): nat {
    if capabilities / 4 % 2 == 1 then capabilities else capabilities + 4
  }

  /** Bit 2 is set and every other bit is as it was. */
  lemma MarkedBit(capabilities: nat)
    ensures var marked := MarkProxied(capabilities);
            marked / 4 % 2 == 1 && marked % 4 == capabilities % 4 && marked / 8 == capabilities / 8
  {
  }

  function Reads(commands: seq<Command>): seq<Command> {
    if commands == [] then []
    else
      var init := Reads(commands[..|commands| - 1]);
      var last := commands[|commands| - 1];
      if last.operation == READ then init + [last] else init
  }

  /** What the proxy does with one command: the upstream state, and the completion it sends
      down, if the session goes on. */
  function Relay<S>(up: Upstream<S>, s: S, c: Command): (S, Option<Completion>) {
    if c.operation != READ then (s, Some(Answer(c, UNSUPPORTED, 0, 0)))
    else
      var (s', k) := up.step(s, c);
      if k.Some? && k.value.requestId == c.requestId then (s', k) else (s', None)
  }

  /** The state of a proxied session after some commands. */
  datatype Progress<S> = Progress(upstream: S, answers: seq<Completion>, forwarded: seq<Command>, broken: bool)

  function Proxied<S>(up: Upstream<S>, s: S, commands: seq<Command>): Progress<S> {
    if commands == [] then Progress(s, [], [], false)
    else
      var before := Proxied(up, s, commands[..|commands| - 1]);
      var c := commands[|commands| - 1];
      if before.broken then before
      else
        var (s', k) := Relay(up, before.upstream, c);
        var forwarded := if c.operation == READ then before.forwarded + [c] else before.forwarded;
        match k
        case None => Progress(s', before.answers, forwarded, true)
        case Some(completion) => Progress(s', before.answers + [completion], forwarded, false)
  }

  // ---------------------------------------------------------------------------
  // The proxy

  /** The command loop. */
  method ProxyCommands<S>(up: Upstream<S>, s: S, commands: seq<Command>, ending: Ending, sessionBytes: nat)
    returns (ok: bool, p: Progress<S>, stats: Stats)
    ensures p == Proxied(up, s, commands)
    ensures ok <==> !p.broken && ending == PeerClosed
    ensures stats == Stats(sessionBytes, COMMAND_BYTES * |p.forwarded|, COMPLETION_BYTES * |p.answers|, |p.answers|, 0)
  {
    p := Progress(s, [], [], false);
    stats := Stats(sessionBytes, 0, 0, 0, 0);
    var i := 0;
    while i < |commands| && !p.broken
      invariant 0 <= i <= |commands| && p == Proxied(up, s, commands[..i])
      invariant stats ==
                Stats(sessionBytes, COMMAND_BYTES * |p.forwarded|, COMPLETION_BYTES * |p.answers|, |p.answers|, 0)
    {
      var c := commands[i];
      assert commands[..i + 1][..i] == commands[..i];
      if c.operation != READ {
        p := p.(answers := p.answers + [Answer(c, UNSUPPORTED, 0, 0)]);
        stats := stats.(completionBytes := stats.completionBytes + COMPLETION_BYTES, requests := stats.requests + 1);
      } else {
        var (s', k) := up.step(p.upstream, c);
        p := p.(upstream := s', forwarded := p.forwarded + [c]);
        stats := stats.(commandBytes := stats.commandBytes + COMMAND_BYTES);
        if k == None || k.value.requestId != c.requestId {
          p := p.(broken := true);
        } else {
          p := p.(answers := p.answers + [k.value]);
          stats := stats.(completionBytes := stats.completionBytes + COMPLETION_BYTES, requests := stats.requests + 1);
        }
      }
      i := i + 1;
    }
    BrokenStays(up, s, commands, i);
    ok := !p.broken && ending == PeerClosed;
  }

  lemma {:induction false} BrokenStays<S>(up: Upstream<S>, s: S, commands: seq<Command>, i: nat)
    requires i <= |commands| && (i == |commands| || Proxied(up, s, commands[..i]).broken)
    ensures Proxied(up, s, commands) == Proxied(up, s, commands[..i])
    decreases |commands|
  {
    if i < |commands| {
      var init := commands[..|commands| - 1];
      assert init[..i] == commands[..i];
      BrokenStays(up, s, init, i);
    } else {
      assert commands[..i] == commands;
    }
  }

  /** A whole session: the handshake is passed through unchanged except for the capability
      bit, and nothing is sent upstream for a session the proxy cannot carry. `sendsUp` and
      `sendsDown` say whether the request reaches the upstream and the response the client;
      bytes are counted once they are sent. */
  method ProxySession<S>(
    up: Upstream<S>, s: S, request: SessionRequest, sendsUp: bool, sendsDown: bool, commands: seq<Command>,
    ending: Ending)
    returns (ok: bool, response: Option<SessionResponse>, p: Progress<S>, stats: Stats)
    ensures !request.tcpControl || request.pull || !sendsUp ==>
              !ok && response == None && p == Progress(s, [], [], false) && stats == Stats(0, 0, 0, 0, 0)
    ensures request.tcpControl && !request.pull && sendsUp ==>
              var (s', r) := up.accept(s, request);
              if r == None || !sendsDown then
                !ok && response == None && p == Progress(s', [], [], false) && stats == Stats(SESSION_BYTES, 0, 0, 0, 0)
              else
                && response == Some(r.value.(capabilities := MarkProxied(r.value.capabilities)))
                && p == Proxied(up, s', commands) && (ok <==> !p.broken && ending == PeerClosed)
                && stats ==
                  Stats(2 * SESSION_BYTES, COMMAND_BYTES * |p.forwarded|, COMPLETION_BYTES * |p.answers|, |p.answers|,
                        0)
  {
    ok, response, p, stats := false, None, Progress(s, [], [], false), Stats(0, 0, 0, 0, 0);
    if !request.tcpControl || request.pull || !sendsUp {
      return;
    }
    var (s', r) := up.accept(s, request);
    stats := stats.(sessionBytes := stats.sessionBytes + SESSION_BYTES);
    p := Progress(s', [], [], false);
    if r == None || !sendsDown {
      return;
    }
    response := Some(r.value.(capabilities := MarkProxied(r.value.capabilities)));
    ok, p, stats := ProxyCommands(up, s', commands, ending, stats.sessionBytes + SESSION_BYTES);
  }

  // ---------------------------------------------------------------------------
  // What a client sees

  /** In order and with their own ids, one answer for each command up to a break; what goes
      upstream is exactly the reads, in order, up to and including the one that broke it. */
  lemma {:induction false} AnswersInOrder<S>(up: Upstream<S>, s: S, commands: seq<Command>)
    ensures var p := Proxied(up, s, commands);
            && |p.answers| <= |commands| && (|p.answers| == |commands| <==> !p.broken)
            && (forall i :: 0 <= i < |p.answers| ==> p.answers[i].requestId == commands[i].requestId)
            && p.forwarded == Reads(if p.broken then commands[..|p.answers| + 1] else commands)
  {
    if commands != [] {
      var n := |commands| - 1;
      var init := commands[..n];
      AnswersInOrder(up, s, init);
      var before := Proxied(up, s, init);
      if before.broken {
        assert init[..|before.answers| + 1] == commands[..|before.answers| + 1];
      } else {
        assert commands[..n + 1] == commands;
      }
    }
  }

  /** An upstream that always answers with the id it was asked for. */
  ghost predicate Echoes<S(!new)>(up: Upstream<S>) {
    forall s, c :: up.step(s, c).1.Some? && up.step(s, c).1.value.requestId == c.requestId
  }

  /** Behind the proxy, such an upstream never breaks a session. */
  lemma {:induction false} EchoNeverBreaks<S(!new)>(up: Upstream<S>, s: S, commands: seq<Command>)
    requires Echoes(up)
    ensures !Proxied(up, s, commands).broken
  {
    if commands != [] {
      EchoNeverBreaks(up, s, commands[..|commands| - 1]);
    }
  }

  // ---------------------------------------------------------------------------
  // In front of the read-only relay

  /** The relay's state: what it can reach, and how its next data movements will turn out. */
  datatype RelayState = RelayState(world: World, faults: seq<Faults>)

  predicate MovesData(w: World, c: Command) { c.operation == READ && !OutOfBounds(|w.storage|, c) }

  function RelayStep(s: RelayState, c: Command): (RelayState, Option<Completion>) {
    if !MovesData(s.world, c) then (s, Some(RelayServe(s.world, c, Faults(true, true, true, 0)).1))
    else
      var f := if s.faults == [] then Faults(true, true, true, 0) else s.faults[0];
      var r := RelayServe(s.world, c, f);
      (RelayState(r.0, if s.faults == [] then [] else s.faults[1..]), Some(r.1))
  }

  const RELAY_CAPABILITY: nat := 8

  /** The relay announces its namespace and that it is a relay (bit 3), never bit 2. */
  function RelayAccept(
    endpoint: Bytes, namespaceKind: nat
  ): (RelayState, SessionRequest) -> (RelayState, Option<SessionResponse>) {
    (s: RelayState, q: SessionRequest) =>
      if !q.tcpControl || q.pull then (s, None)
      else (s,
            Some(SessionResponse(0, endpoint, |s.world.storage|, MaxTransfer(|s.world.storage|),
                                 namespaceKind + RELAY_CAPABILITY)))
  }

  function RelayServer(endpoint: Bytes, namespaceKind: nat): Upstream<RelayState> {
    Upstream(RelayAccept(endpoint, namespaceKind), RelayStep)
  }

  /** A client talking to the relay directly. */
  function Direct(s: RelayState, commands: seq<Command>): (RelayState, seq<Completion>) {
    if commands == [] then (s, [])
    else
      var before := Direct(s, commands[..|commands| - 1]);
      var (s', k) := RelayStep(before.0, commands[|commands| - 1]);
      (s', if k.Some? then before.1 + [k.value] else before.1)
  }

  lemma RelayAnswers(s: RelayState, c: Command)
    ensures RelayStep(s, c).1.Some? && RelayStep(s, c).1.value.requestId == c.requestId
    ensures c.operation != READ ==> RelayStep(s, c) == (s, Some(Answer(c, UNSUPPORTED, 0, 0)))
  {
  }

  /** The transparency theorem: whatever the client sends and however the data movement
      turns out, it gets the same completions through the proxy as from the relay itself, and
      the relay ends in the same state, client memory included. */
  lemma {:induction false} ProxyIsTransparent(endpoint: Bytes, kind: nat, s: RelayState, commands: seq<Command>)
    ensures var p := Proxied(RelayServer(endpoint, kind), s, commands);
            !p.broken && (p.upstream, p.answers) == Direct(s, commands)
  {
    if commands != [] {
      var n := |commands| - 1;
      ProxyIsTransparent(endpoint, kind, s, commands[..n]);
      RelayAnswers(Direct(s, commands[..n]).0, commands[n]);
    }
  }

  /** The session response differs from the relay's own in the proxy bit and nothing else. */
  lemma HandshakeDiffersInOneBit(endpoint: Bytes, kind: nat, s: RelayState, q: SessionRequest)
    requires q.tcpControl && !q.pull && (kind == 1 || kind == 2)
    ensures var r := RelayAccept(endpoint, kind)(s, q).1;
            && r.Some?
            && var marked := r.value.(capabilities := MarkProxied(r.value.capabilities));
               && marked.(capabilities := r.value.capabilities) == r.value
               && marked.capabilities == r.value.capabilities + 4 && r.value.capabilities / 4 % 2 == 0
  {
  }
}
