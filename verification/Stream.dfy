/** Stream sockets: calls may move any number of bytes, be interrupted, or fail. */
module Stream {
  import opened Common

  /** How a socket call turns out: it moves up to `n` bytes (at least one if it can), is
      interrupted by a signal, or fails. */
  datatype Turn = Moves(n: nat) | Interrupted | Broken

  predicate Unbroken(script: seq<Turn>) { forall i :: 0 <= i < |script| ==> script[i] != Broken }

  /** Between one and `limit` bytes, as many as the turn says. */
  function Clamp(n: nat, limit: nat): (r: nat)
    requires limit > 0
    ensures 0 < r <= limit
  {
    if n == 0 then 1 else if n < limit then n else limit
  }

  datatype Received = Data(bytes: Bytes) | EndOfStream | TryAgain | Failure

  datatype ReadResult = Success | PeerClosed | Error

  /** One end of a connection. `incoming` is everything the peer sends before it closes;
      `outgoing` is what has been sent. `script` says how the next calls turn out; calls
      beyond it move all they can. */
  class Socket {
    var incoming: Bytes
    var outgoing: Bytes
    var script: seq<Turn>

    constructor (incoming: Bytes, script: seq<Turn>)
      ensures this.incoming == incoming && this.script == script && outgoing == []
    {
      this.incoming, this.outgoing, this.script := incoming, [], script;
    }

    method NextTurn() returns (turn: Turn)
      modifies this`script
      ensures Unbroken(old(script)) ==> Unbroken(script) && turn != Broken
      ensures if old(script) == [] then script == [] && turn.Moves? && turn.n >= |incoming|
              else script == old(script)[1..] && turn == old(script)[0]
    {
      if script == [] {
        return Moves(|incoming|);
      }
      turn := script[0];
      script := script[1..];
    }

    method Receive(max: nat) returns (r: Received)
      requires max > 0
      modifies this`incoming, this`script
      ensures Unbroken(old(script)) ==> Unbroken(script) && r != Failure
      ensures r.Data? ==> 0 < |r.bytes| <= max && old(incoming) == r.bytes + incoming && |script| <= |old(script)|
      ensures !r.Data? ==> incoming == old(incoming)
      ensures r == EndOfStream ==> incoming == []
      ensures r == TryAgain ==> |script| < |old(script)|
    {
      var turn := NextTurn();
      match turn {
        case Interrupted =>
          return TryAgain;
        case Broken =>
          return Failure;
        case Moves(n) =>
          if incoming == [] {
            return EndOfStream;
          }
          var count := Clamp(n, if max < |incoming| then max else |incoming|);
          r := Data(incoming[..count]);
          incoming := incoming[count..];
      }
    }

    /** Sends some of the data; None if the call failed, Some(0) if it was interrupted. */
    method Send(data: Bytes) returns (count: Option<nat>)
      requires data != []
      modifies this`outgoing, this`script
      ensures Unbroken(old(script)) ==> Unbroken(script) && count.Some?
      ensures count.Some? ==> count.value <= |data| && outgoing == old(outgoing) + data[..count.value]
      ensures count == None ==> outgoing == old(outgoing)
      ensures |script| <= |old(script)| && (count == Some(0) ==> |script| < |old(script)|)
    {
      if script == [] {
        outgoing := outgoing + data;
        assert data[..|data|] == data;
        return Some(|data|);
      }
      var turn := script[0];
      script := script[1..];
      match turn {
        case Interrupted =>
          assert outgoing + data[..0] == outgoing;
          return Some(0);
        case Broken =>
          return None;
        case Moves(n) =>
          var moved := Clamp(n, |data|);
          outgoing := outgoing + data[..moved];
          return Some(moved);
      }
    }

    /** Sends everything, retrying after interrupts and partial sends. */
    method WriteAll(data: Bytes) returns (ok: bool)
      modifies this`outgoing, this`script
      ensures ok ==> outgoing == old(outgoing) + data
      ensures Unbroken(old(script)) ==> ok && Unbroken(script)
      ensures old(outgoing) <= outgoing <= old(outgoing) + data
    {
      var done := 0;
      while done < |data|
        invariant 0 <= done <= |data| && outgoing == old(outgoing) + data[..done]
        invariant Unbroken(old(script)) ==> Unbroken(script)
        decreases |script| + |data| - done
      {
        var count := Send(data[done..]);
        if count == None {
          return false;
        }
        assert data[..done] + data[done..][..count.value] == data[..done + count.value];
        done := done + count.value;
      }
      assert data[..done] == data;
      return true;
    }

    /** Receives exactly `size` bytes, whatever the chunks: with an unbroken connection it
        succeeds exactly when that many bytes are there, reports a clean close exactly when
        none were, and an error in between. */
    method ReadAll(size: nat) returns (result: ReadResult, data: Bytes)
      modifies this`incoming, this`script
      ensures Unbroken(old(script)) ==> Unbroken(script)
      ensures old(incoming) == data + incoming && |data| <= size
      ensures result == Success <==> |data| == size
      ensures result == PeerClosed ==> old(incoming) == [] && size > 0
      ensures Unbroken(old(script)) ==>
                && (result == Success <==> |old(incoming)| >= size)
                && (result == PeerClosed <==> old(incoming) == [] && size > 0)
    {
      data := [];
      while |data| < size
        invariant |data| <= size && old(incoming) == data + incoming
        invariant Unbroken(old(script)) ==> Unbroken(script)
        decreases |script| + size - |data|
      {
        var r := Receive(size - |data|);
        match r {
          case TryAgain =>
          case EndOfStream =>
            return if data == [] then PeerClosed else Error, data;
          case Failure =>
            return Error, data;
          case Data(bytes) =>
            data := data + bytes;
        }
      }
      return Success, data;
    }
  }
}
