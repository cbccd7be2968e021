/** Control messages over a TCP stream. */
module ControlChannel {
  import opened Fields
  import opened Wire
  import opened Stream

  /** Sends a command; an invalid command is refused and nothing is sent. */
  method SendCommand(socket: Socket, c: Command) returns (ok: bool)
    modifies socket
    ensures !CommandValid(c) ==> !ok && socket.outgoing == old(socket.outgoing)
    ensures ok ==> CommandValid(c) && socket.outgoing == old(socket.outgoing) + EncodeCommand(c).value
    ensures CommandValid(c) ==> old(socket.outgoing) <= socket.outgoing <= old(socket.outgoing) + EncodeCommand(c).value
    ensures Unbroken(old(socket.script)) ==> (ok <==> CommandValid(c)) && Unbroken(socket.script)
    ensures socket.incoming == old(socket.incoming)
  {
    match EncodeCommand(c) {
      case None =>
        return false;
      case Some(wire) =>
        ok := socket.WriteAll(wire);
    }
  }

  /** Receives one command: exactly the next 64 bytes, if they are the encoding of one. */
  method ReceiveCommand(socket: Socket) returns (result: ReadResult, c: Command)
    modifies socket
    ensures socket.outgoing == old(socket.outgoing)
    ensures result == Success ==>
              CommandFits(c) && CommandValid(c) && old(socket.incoming) == EncodeCommand(c).value + socket.incoming
    ensures result == PeerClosed ==> old(socket.incoming) == [] && socket.incoming == []
    ensures Unbroken(old(socket.script)) ==>
              && Unbroken(socket.script)
              && (result == PeerClosed <==> old(socket.incoming) == [])
              && (result == Success <==>
                    |old(socket.incoming)| >= COMMAND_BYTES &&
                      DecodeCommand(old(socket.incoming)[..COMMAND_BYTES]).Some?)
  {
    c := Command(0, READ, 0, 0, 0, 0, 0, 0);
    var data;
    result, data := socket.ReadAll(COMMAND_BYTES);
    if result != Success {
      return;
    }
    assert data == old(socket.incoming)[..COMMAND_BYTES];
    CommandCanonical(data);
    match DecodeCommand(data) {
      case None =>
        result := Error;
      case Some(decoded) =>
        c := decoded;
    }
  }

  method SendCompletion(socket: Socket, k: Completion) returns (ok: bool)
    modifies socket
    ensures k.requestId == 0 ==> !ok && socket.outgoing == old(socket.outgoing)
    ensures ok ==> k.requestId != 0 && socket.outgoing == old(socket.outgoing) + EncodeCompletion(k).value
    ensures k.requestId != 0 ==>
            old(socket.outgoing) <= socket.outgoing <= old(socket.outgoing) + EncodeCompletion(k).value
    ensures Unbroken(old(socket.script)) ==> (ok <==> k.requestId != 0) && Unbroken(socket.script)
    ensures socket.incoming == old(socket.incoming)
  {
    match EncodeCompletion(k) {
      case None =>
        return false;
      case Some(wire) =>
        ok := socket.WriteAll(wire);
    }
  }

  method ReceiveCompletion(socket: Socket) returns (result: ReadResult, k: Completion)
    modifies socket
    ensures socket.outgoing == old(socket.outgoing)
    ensures result == Success ==>
              && k.requestId != 0 && CompletionFits(k) && k.status < U16
              && old(socket.incoming) == EncodeCompletion(k).value + socket.incoming
    ensures result == PeerClosed ==> old(socket.incoming) == [] && socket.incoming == []
    ensures Unbroken(old(socket.script)) ==>
              && Unbroken(socket.script)
              && (result == PeerClosed <==> old(socket.incoming) == [])
              && (result == Success <==>
                    |old(socket.incoming)| >= COMPLETION_BYTES &&
                      DecodeCompletion(old(socket.incoming)[..COMPLETION_BYTES]).Some?)
  {
    k := Completion(0, 0, 0, 0, 0);
    var data;
    result, data := socket.ReadAll(COMPLETION_BYTES);
    if result != Success {
      return;
    }
    assert data == old(socket.incoming)[..COMPLETION_BYTES];
    match DecodeCompletion(data) {
      case None =>
        result := Error;
      case Some(decoded) =>
        CompletionCanonical(data);
        k := decoded;
    }
  }
}
