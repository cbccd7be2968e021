/** The proxy's command loop on the two byte streams it stands between. Either stream may come
    in any chunks, be interrupted, carry anything, or break at any point. */
module ControlStream {
  import opened Common
  import opened Fields
  import opened Wire
  import opened Stream
  import opened ControlChannel
  import opened StorageServer
  import opened ControlProxy

  function CommandWire(c: Command): Bytes { Pack(Little, CommandFields(c), COMMAND_WIDTHS) }

  function CompletionWire(k: Completion): Bytes { Pack(Little, CompletionFields(k), COMPLETION_WIDTHS) }

  function CommandStream(commands: seq<Command>): Bytes {
    if commands == [] then [] else CommandStream(commands[..|commands| - 1]) + CommandWire(commands[|commands| - 1])
  }

  function CompletionStream(completions: seq<Completion>): Bytes {
    if completions == [] then []
    else CompletionStream(completions[..|completions| - 1]) + CompletionWire(completions[|completions| - 1])
  }

  lemma CommandStreamAppend(commands: seq<Command>, c: Command)
    ensures CommandStream(commands + [c]) == CommandStream(commands) + CommandWire(c)
  {
    assert (commands + [c])[..|commands|] == commands;
  }

  lemma CompletionStreamAppend(completions: seq<Completion>, k: Completion)
    ensures CompletionStream(completions + [k]) == CompletionStream(completions) + CompletionWire(k)
  {
    assert (completions + [k])[..|completions|] == completions;
  }

  lemma ReadsAppend(commands: seq<Command>, c: Command)
    ensures Reads(commands + [c]) == if c.operation == READ then Reads(commands) + [c] else Reads(commands)
  {
    assert (commands + [c])[..|commands|] == commands;
  }

  /** The answers to commands, given the upstream replies to the reads among them. */
  function Answers(commands: seq<Command>, replies: seq<Completion>): seq<Completion>
    requires |replies| == |Reads(commands)|
  {
    if commands == [] then []
    else
      var n := |commands| - 1;
      var c := commands[n];
      if c.operation == READ then Answers(commands[..n], replies[..|replies| - 1]) + [replies[|replies| - 1]]
      else Answers(commands[..n], replies) + [Answer(c, UNSUPPORTED, 0, 0)]
  }

  lemma AnswersAppend(commands: seq<Command>, replies: seq<Completion>, c: Command, reply: Completion)
    requires |replies| == |Reads(commands)|
    ensures c.operation != READ ==>
              |replies| == |Reads(commands + [c])| &&
                Answers(commands + [c], replies) == Answers(commands, replies) + [Answer(c, UNSUPPORTED, 0, 0)]
    ensures c.operation == READ ==>
              |replies + [reply]| == |Reads(commands + [c])| &&
                Answers(commands + [c], replies + [reply]) == Answers(commands, replies) + [reply]
  {
    ReadsAppend(commands, c);
    assert (commands + [c])[..|commands|] == commands;
    assert (replies + [reply])[..|replies|] == replies;
  }

  /** Upstream answered each read with its own id. */
  predicate Echoed(asked: seq<Command>, replies: seq<Completion>) {
    |replies| == |asked| && forall i :: 0 <= i < |asked| ==> replies[i].requestId == asked[i].requestId
  }

  /** One answer per command, in order, with its own id. */
  lemma {:induction false} AnswersEcho(commands: seq<Command>, replies: seq<Completion>)
    requires Echoed(Reads(commands), replies)
    ensures |Answers(commands, replies)| == |commands|
    ensures forall i :: 0 <= i < |commands| ==> Answers(commands, replies)[i].requestId == commands[i].requestId
  {
    if commands != [] {
      var n := |commands| - 1;
      var c := commands[n];
      assert commands == commands[..n] + [c];
      ReadsAppend(commands[..n], c);
      if c.operation == READ {
        AnswersEcho(commands[..n], replies[..|replies| - 1]);
      } else {
        AnswersEcho(commands[..n], replies);
      }
    }
  }

  /** Bytes read from and written to the two connections. */
  datatype Wires = Wires(downIn: Bytes, downOut: Bytes, upIn: Bytes, upOut: Bytes)

  ghost function WiresOf(down: Socket, up: Socket): Wires
    reads down, up
  {
    Wires(down.incoming, down.outgoing, up.incoming, up.outgoing)
  }

  /** From `w` to `w'`, these commands have been taken from the client and answered, with these
      replies from upstream. */
  ghost predicate Exchanged(w: Wires, w': Wires, commands: seq<Command>, replies: seq<Completion>) {
    && Echoed(Reads(commands), replies)
    && w.downIn == CommandStream(commands) + w'.downIn && w.upIn == CompletionStream(replies) + w'.upIn
    && w'.upOut == w.upOut + CommandStream(Reads(commands))
    && w'.downOut == w.downOut + CompletionStream(Answers(commands, replies))
  }

  /** One more command has been taken and answered. */
  predicate OneMore(w: Wires, w': Wires, c: Command, reply: Completion) {
    && w.downIn == CommandWire(c) + w'.downIn
    && if c.operation == READ then
         && reply.requestId == c.requestId && w.upIn == CompletionWire(reply) + w'.upIn
         && w'.upOut == w.upOut + CommandWire(c) && w'.downOut == w.downOut + CompletionWire(reply)
       else
         && w'.upIn == w.upIn && w'.upOut == w.upOut
         && w'.downOut == w.downOut + CompletionWire(Answer(c, UNSUPPORTED, 0, 0))
  }

  lemma TakeMore(all: Bytes, taken: Bytes, left: Bytes, more: Bytes, left': Bytes)
    requires all == taken + left && left == more + left'
    ensures all == taken + more + left'
  {
  }

  lemma Rest(all: Bytes, taken: Bytes, left: Bytes)
    requires all == taken + left
    ensures all[|taken|..] == left
  {
  }

  lemma SendMore(start: Bytes, sent: Bytes, out: Bytes, more: Bytes, out': Bytes)
    requires out == start + sent && out' == out + more
    ensures out' == start + (sent + more)
  {
  }

  lemma EchoMore(commands: seq<Command>, replies: seq<Completion>, c: Command, reply: Completion)
    requires Echoed(Reads(commands), replies) && (c.operation == READ ==> reply.requestId == c.requestId)
    ensures Echoed(Reads(commands + [c]), if c.operation == READ then replies + [reply] else replies)
  {
    ReadsAppend(commands, c);
  }

  lemma ReadExchanged(
    w0: Wires, w: Wires, w': Wires, commands: seq<Command>, replies: seq<Completion>, c: Command, reply: Completion)
    requires Exchanged(w0, w, commands, replies) && OneMore(w, w', c, reply) && c.operation == READ
    ensures Exchanged(w0, w', commands + [c], replies + [reply])
  {
    var x, y := CommandWire(c), CompletionWire(reply);
    EchoMore(commands, replies, c, reply);
    AnswersAppend(commands, replies, c, reply);
    ReadsAppend(commands, c);
    CommandStreamAppend(commands, c);
    CommandStreamAppend(Reads(commands), c);
    CompletionStreamAppend(replies, reply);
    CompletionStreamAppend(Answers(commands, replies), reply);
    TakeMore(w0.downIn, CommandStream(commands), w.downIn, x, w'.downIn);
    TakeMore(w0.upIn, CompletionStream(replies), w.upIn, y, w'.upIn);
    SendMore(w0.upOut, CommandStream(Reads(commands)), w.upOut, x, w'.upOut);
    SendMore(w0.downOut, CompletionStream(Answers(commands, replies)), w.downOut, y, w'.downOut);
  }

  lemma OtherExchanged(
    w0: Wires, w: Wires, w': Wires, commands: seq<Command>, replies: seq<Completion>, c: Command, reply: Completion)
    requires Exchanged(w0, w, commands, replies) && OneMore(w, w', c, reply) && c.operation != READ
    ensures Exchanged(w0, w', commands + [c], replies)
  {
    var x, k := CommandWire(c), Answer(c, UNSUPPORTED, 0, 0);
    EchoMore(commands, replies, c, reply);
    AnswersAppend(commands, replies, c, reply);
    ReadsAppend(commands, c);
    CommandStreamAppend(commands, c);
    CompletionStreamAppend(Answers(commands, replies), k);
    TakeMore(w0.downIn, CommandStream(commands), w.downIn, x, w'.downIn);
    SendMore(w0.downOut, CompletionStream(Answers(commands, replies)), w.downOut, CompletionWire(k), w'.downOut);
  }

  lemma ExchangedMore(
    w0: Wires, w: Wires, w': Wires, commands: seq<Command>, replies: seq<Completion>, c: Command, reply: Completion)
    requires Exchanged(w0, w, commands, replies) && OneMore(w, w', c, reply)
    ensures Exchanged(w0, w', commands + [c], if c.operation == READ then replies + [reply] else replies)
  {
    if c.operation == READ {
      ReadExchanged(w0, w, w', commands, replies, c, reply);
    } else {
      OtherExchanged(w0, w, w', commands, replies, c, reply);
    }
  }

  /** The client's stream goes on, but not with a command; or with a read to which the upstream
      stream holds no reply of its own. */
  predicate Stuck(downIn: Bytes, upIn: Bytes) {
    && downIn != []
    && (|downIn| < COMMAND_BYTES || DecodeCommand(downIn[..COMMAND_BYTES]) == None ||
        var c := DecodeCommand(downIn[..COMMAND_BYTES]).value;
        c.operation == READ && NoReply(upIn, c))
  }

  predicate NoReply(upIn: Bytes, c: Command) {
    |upIn| < COMPLETION_BYTES || DecodeCompletion(upIn[..COMPLETION_BYTES]) == None ||
    DecodeCompletion(upIn[..COMPLETION_BYTES]).value.requestId != c.requestId
  }

  datatype Turned = GoesOn | Closed | Failed

  /** One turn of the loop. If the session goes on, exactly one more command has been taken and
      answered; if the client has closed, nothing has happened; if it fails, nothing that was
      sent before is taken back. */
  method Turn(down: Socket, up: Socket)
    returns (turned: Turned, forwarded: bool, ghost c: Command, ghost reply: Completion)
    requires down != up
    modifies down, up
    ensures turned == GoesOn ==>
              && OneMore(old(WiresOf(down, up)), WiresOf(down, up), c, reply) && forwarded == (c.operation == READ)
              && |down.incoming| < |old(down.incoming)|
    ensures turned == Closed ==> WiresOf(down, up) == old(WiresOf(down, up)) && down.incoming == [] && !forwarded
    ensures old(down.outgoing) <= down.outgoing && old(up.outgoing) <= up.outgoing
    ensures Unbroken(old(down.script)) && Unbroken(old(up.script)) ==>
              && Unbroken(down.script) && Unbroken(up.script) && (turned == Closed <==> old(down.incoming) == [])
              && (turned == Failed ==> Stuck(old(down.incoming), old(up.incoming)))
  {
    reply, c, forwarded := Completion(0, 0, 0, 0, 0), Command(0, READ, 0, 0, 0, 0, 0, 0), false;
    var received, command := ReceiveCommand(down);
    if received == ReadResult.PeerClosed {
      assert down.incoming == [];
      return Closed, false, c, reply;
    }
    if received != Success {
      return Failed, false, c, reply;
    }
    c := command;
    CommandRoundTrip(c);
    assert DecodeCommand(old(down.incoming)[..COMMAND_BYTES]) == Some(c) by {
      assert old(down.incoming)[..COMMAND_BYTES] == CommandWire(c);
    }
    if command.operation != READ {
      var sent := SendCompletion(down, Answer(command, UNSUPPORTED, 0, 0));
      return if sent then GoesOn else Failed, false, c, reply;
    }
    forwarded := SendCommand(up, command);
    if !forwarded {
      return Failed, false, c, reply;
    }
    var answered, completion := ReceiveCompletion(up);
    if answered == Success {
      ReplyOnWire(old(up.incoming), completion, up.incoming);
    }
    if answered != Success || completion.requestId != command.requestId {
      return Failed, true, c, reply;
    }
    reply := completion;
    var relayed := SendCompletion(down, completion);
    return if relayed then GoesOn else Failed, true, c, reply;
  }

  lemma ReplyOnWire(upIn: Bytes, k: Completion, upIn': Bytes)
    requires upIn == CompletionWire(k) + upIn' && k.requestId != 0 && CompletionFits(k) && k.status < U16
    ensures |upIn| >= COMPLETION_BYTES && DecodeCompletion(upIn[..COMPLETION_BYTES]) == Some(k)
  {
    CompletionRoundTrip(k);
    assert upIn[..COMPLETION_BYTES] == CompletionWire(k);
  }

  /** What a session has exchanged when it is over, cleanly or not. */
  ghost predicate Over(w: Wires, w': Wires, ok: bool, commands: seq<Command>, replies: seq<Completion>) {
    && Echoed(Reads(commands), replies)
    && CommandStream(commands) <= w.downIn && CompletionStream(replies) <= w.upIn
    && w.upOut + CommandStream(Reads(commands)) <= w'.upOut
    && w.downOut + CompletionStream(Answers(commands, replies)) <= w'.downOut
    && (ok ==> Exchanged(w, w', commands, replies) && w'.downIn == [])
  }

  lemma ExchangedOver(w: Wires, w1: Wires, w': Wires, ok: bool, commands: seq<Command>, replies: seq<Completion>)
    requires Exchanged(w, w1, commands, replies) && w1.upOut <= w'.upOut && w1.downOut <= w'.downOut
    requires ok ==> w' == w1 && w1.downIn == []
    ensures Over(w, w', ok, commands, replies)
  {
  }

  /** The counters are message counts times wire sizes; a session that failed may have
      forwarded one command it did not get to answer. */
  predicate Counted(stats: Stats, commands: seq<Command>, failed: bool) {
    && stats.sessionBytes == 0 && stats.payloadBytes == 0
    && stats.completionBytes == COMPLETION_BYTES * |commands| && stats.requests == |commands|
    && (stats.commandBytes == COMMAND_BYTES * |Reads(commands)| ||
        (failed && stats.commandBytes == COMMAND_BYTES * (|Reads(commands)| + 1)))
  }

  lemma CountMore(stats: Stats, commands: seq<Command>, c: Command)
    requires Counted(stats, commands, false)
    ensures Counted(Stats(0, stats.commandBytes + (if c.operation == READ then COMMAND_BYTES else 0),
                          stats.completionBytes + COMPLETION_BYTES, stats.requests + 1, 0), commands + [c], false)
  {
    ReadsAppend(commands, c);
  }

  /** A session between two turns, and after the last. */
  ghost predicate Session(
    w: Wires, w': Wires, turned: Turned, commands: seq<Command>, replies: seq<Completion>, stats: Stats, unbroken: bool)
  {
    && (turned == GoesOn ==> Exchanged(w, w', commands, replies))
    && (turned != GoesOn ==> Over(w, w', turned == Closed, commands, replies))
    && Counted(stats, commands, turned == Failed)
    && (unbroken && turned == Failed ==> StuckAfter(w, commands, replies))
  }

  ghost predicate StuckAfter(w: Wires, commands: seq<Command>, replies: seq<Completion>) {
    && CommandStream(commands) <= w.downIn && CompletionStream(replies) <= w.upIn
    && Stuck(w.downIn[|CommandStream(commands)|..], w.upIn[|CompletionStream(replies)|..])
  }

  lemma SessionGoesOn(
    w: Wires, w1: Wires, w': Wires, commands: seq<Command>, replies: seq<Completion>, stats: Stats, unbroken: bool,
    c: Command, reply: Completion)
    requires Session(w, w1, GoesOn, commands, replies, stats, unbroken) && OneMore(w1, w', c, reply)
    ensures Session(w, w', GoesOn, commands + [c], if c.operation == READ then replies + [reply] else replies,
                    Stats(0, stats.commandBytes + (if c.operation == READ then COMMAND_BYTES else 0),
                          stats.completionBytes + COMPLETION_BYTES, stats.requests + 1, 0), unbroken)
  {
    ExchangedMore(w, w1, w', commands, replies, c, reply);
    CountMore(stats, commands, c);
  }

  lemma SessionEnds(
    w: Wires, w1: Wires, w': Wires, turned: Turned, commands: seq<Command>, replies: seq<Completion>, stats: Stats,
    unbroken: bool,
    forwarded: bool)
    requires Session(w, w1, GoesOn, commands, replies, stats, unbroken) && turned != GoesOn
    requires w1.upOut <= w'.upOut && w1.downOut <= w'.downOut
    requires turned == Closed ==> w' == w1 && w1.downIn == [] && !forwarded
    requires unbroken && turned == Failed ==> Stuck(w1.downIn, w1.upIn)
    ensures Session(w, w', turned, commands, replies,
                    stats.(commandBytes := stats.commandBytes + if forwarded then COMMAND_BYTES else 0), unbroken)
  {
    ExchangedOver(w, w1, w', turned == Closed, commands, replies);
    Rest(w.downIn, CommandStream(commands), w1.downIn);
    Rest(w.upIn, CompletionStream(replies), w1.upIn);
  }

  /** A turn with its bookkeeping. */
  method CountedTurn(
    down: Socket, up: Socket, ghost w: Wires, ghost commands: seq<Command>, ghost replies: seq<Completion>,
    stats: Stats, ghost unbroken: bool
  ) returns (turned: Turned, stats': Stats, ghost c: Command, ghost reply: Completion)
    requires down != up && Session(w, WiresOf(down, up), GoesOn, commands, replies, stats, unbroken)
    requires unbroken ==> Unbroken(down.script) && Unbroken(up.script)
    modifies down, up
    ensures unbroken ==> Unbroken(down.script) && Unbroken(up.script)
    ensures turned == GoesOn ==>
              && |down.incoming| < |old(down.incoming)|
              && Session(w, WiresOf(down, up), GoesOn, commands + [c],
                         if c.operation == READ then replies + [reply] else replies, stats', unbroken)
    ensures turned != GoesOn ==> Session(w, WiresOf(down, up), turned, commands, replies, stats', unbroken)
  {
    ghost var w1 := WiresOf(down, up);
    var forwarded;
    turned, forwarded, c, reply := Turn(down, up);
    stats' := stats;
    if forwarded {
      stats' := stats'.(commandBytes := stats'.commandBytes + COMMAND_BYTES);
    }
    if turned == GoesOn {
      stats' := stats'.(completionBytes := stats'.completionBytes + COMPLETION_BYTES, requests := stats'.requests + 1);
      SessionGoesOn(w, w1, WiresOf(down, up), commands, replies, stats, unbroken, c, reply);
    } else {
      SessionEnds(w, w1, WiresOf(down, up), turned, commands, replies, stats, unbroken, forwarded);
    }
  }

  /** The loop. Whatever the streams carry and wherever they break: the commands taken are the
      start of what the client sent and the replies taken the start of what upstream sent; for
      those commands exactly the reads have gone upstream, in order, and exactly one answer
      each has gone to the client, in order. The session ends well only when the client's
      whole stream has been served, and then nothing else has been sent; on unbroken
      connections it fails only where a stream itself is out of order. */
  method ProxyStream(down: Socket, up: Socket)
    returns (ok: bool, ghost commands: seq<Command>, ghost replies: seq<Completion>, stats: Stats)
    requires down != up
    modifies down, up
    ensures Over(old(WiresOf(down, up)), WiresOf(down, up), ok, commands, replies)
    ensures Counted(stats, commands, !ok)
    ensures Unbroken(old(down.script)) && Unbroken(old(up.script)) && !ok ==>
              StuckAfter(old(WiresOf(down, up)), commands, replies)
  {
    commands, replies, stats := [], [], Stats(0, 0, 0, 0, 0);
    ghost var w, unbroken := WiresOf(down, up), Unbroken(down.script) && Unbroken(up.script);
    var turned := GoesOn;
    assert Exchanged(w, w, [], []);
    while turned == GoesOn
      invariant Session(w, WiresOf(down, up), turned, commands, replies, stats, unbroken)
      invariant unbroken ==> Unbroken(down.script) && Unbroken(up.script)
      decreases turned == GoesOn, |down.incoming|
    {
      ghost var c, reply;
      turned, stats, c, reply := CountedTurn(down, up, w, commands, replies, stats, unbroken);
      if turned == GoesOn {
        commands, replies := commands + [c], if c.operation == READ then replies + [reply] else replies;
      }
    }
    ok := turned == Closed;
  }

  // ---------------------------------------------------------------------------
  // In front of the relay

  lemma DirectAppend(s: RelayState, commands: seq<Command>, c: Command)
    ensures var before := Direct(s, commands);
            Direct(s, commands + [c]) == (RelayStep(before.0, c).0, before.1 + [RelayStep(before.0, c).1.value])
  {
    assert (commands + [c])[..|commands|] == commands;
    RelayAnswers(Direct(s, commands).0, c);
  }

  /** The relay's answers to all commands are its answers to the reads, with the proxy's own
      answers in between. */
  lemma {:induction false} RelayThroughProxy(s: RelayState, commands: seq<Command>)
    ensures Direct(s, Reads(commands)).0 == Direct(s, commands).0
    ensures |Direct(s, Reads(commands)).1| == |Reads(commands)|
    ensures Answers(commands, Direct(s, Reads(commands)).1) == Direct(s, commands).1
  {
    if commands != [] {
      var n := |commands| - 1;
      var init, c := commands[..n], commands[n];
      assert commands == init + [c];
      RelayThroughProxy(s, init);
      ReadsAppend(init, c);
      DirectAppend(s, init, c);
      RelayAnswers(Direct(s, init).0, c);
      if c.operation == READ {
        DirectAppend(s, Reads(init), c);
      }
      AnswersAppend(init, Direct(s, Reads(init)).1, c, RelayStep(Direct(s, init).0, c).1.value);
    }
  }

  /** Transparency on the wire: when the upstream bytes are the relay's replies to the reads the
      proxy forwarded, the bytes the client receives are exactly those the relay itself would
      have sent it for the same commands. */
  lemma TransparentOnTheWire(w: Wires, w': Wires, commands: seq<Command>, replies: seq<Completion>, s: RelayState)
    requires Over(w, w', true, commands, replies) && replies == Direct(s, Reads(commands)).1
    ensures w.downIn == CommandStream(commands)
    ensures w'.downOut == w.downOut + CompletionStream(Direct(s, commands).1)
  {
    RelayThroughProxy(s, commands);
    assert CommandStream(commands) + [] == CommandStream(commands);
  }
}
