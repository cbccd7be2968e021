/** The client and the storage server together: what a client may conclude from a success. */
module StorageClient {
  import opened Common
  import opened Fields
  import opened Wire
  import opened StorageServer
  import HostRa

  /** What the client decodes of a completion the server sent. */
  function Seen(k: Completion): Option<HostRa.Completion> {
    match EncodeCompletion(k)
    case None => None
    case Some(wire) =>
      match DecodeCompletion(wire)
      case None => None
      case Some(c) => Some(HostRa.Completion(c.requestId, c.status, c.bytes))
  }

  /** The only completion with the request's id that reaches the client, over TCP or through
      its device memory, is the one the server sent. */
  predicate FromServer(mode: HostRa.ControlMode, s: HostRa.SubmitScript, requestId: nat, k: Completion) {
    && (mode == HostRa.Tcp && s.received.Some? ==> s.received == Seen(k))
    && (mode != HostRa.Tcp ==>
          forall i :: 0 <= i < |s.polls| && s.polls[i].Decoded? && s.polls[i].completion.requestId == requestId ==>
            Some(s.polls[i].completion) == Seen(k))
  }

  /** The outcome for which the client's session reports success. */
  predicate ClientSucceeds(mode: HostRa.ControlMode, s: HostRa.SubmitScript, c: Command) {
    c.requestId != 0 && HostRa.Exchange(mode, s, c.requestId) == Some(HostRa.Completion(c.requestId, 0, c.length))
  }

  lemma {:induction false} PolledIsDecoded(polls: seq<HostRa.Poll>, requestId: nat)
    requires requestId != 0 && HostRa.Polled(polls, requestId).Some?
    requires HostRa.Polled(polls, requestId).value.requestId == requestId
    ensures exists i :: 0 <= i < |polls| && polls[i] == HostRa.Decoded(HostRa.Polled(polls, requestId).value)
  {
    if polls != [] {
      if polls[0].Decoded? && polls[0].completion.requestId == requestId {
        assert polls[0] == HostRa.Decoded(HostRa.Polled(polls, requestId).value);
      } else if !polls[0].CopyFailed? {
        PolledIsDecoded(polls[1..], requestId);
        var i :| 0 <= i < |polls[1..]| && polls[1..][i] == HostRa.Decoded(HostRa.Polled(polls[1..], requestId).value);
        assert polls[i + 1] == polls[1..][i];
      }
    }
  }

  /** A client success means the client saw the server's own completion. */
  lemma SuccessWasSent(mode: HostRa.ControlMode, s: HostRa.SubmitScript, c: Command, k: Completion)
    requires FromServer(mode, s, c.requestId, k) && ClientSucceeds(mode, s, c)
    ensures Seen(k) == Some(HostRa.Completion(c.requestId, 0, c.length))
  {
    if mode != HostRa.Tcp {
      PolledIsDecoded(s.polls, c.requestId);
      var i :| 0 <= i < |s.polls| && s.polls[i] == HostRa.Decoded(HostRa.Completion(c.requestId, 0, c.length));
      assert s.polls[i].Decoded? && s.polls[i].completion.requestId == c.requestId;
    }
  }

  predicate AnswerFits(k: Completion) { CompletionFits(k) && k.status < U16 }

  lemma AnswersFit(c: Command, data: Bytes)
    requires CommandFits(c)
    ensures AnswerFits(Succeeded(c, data)) && AnswerFits(Answer(c, BACKEND_ERROR, 0, 0))
    ensures AnswerFits(Answer(c, INVALID_REQUEST, 0, 0)) && AnswerFits(Answer(c, UNSUPPORTED, 0, 0))
  {
  }

  lemma MovedFits(w: World, c: Command, f: Faults)
    requires CommandFits(c) && !OutOfBounds(|w.storage|, c)
    ensures AnswerFits(MoveOut(w, c, f).1) && AnswerFits(MoveIn(w, c, f).1)
  {
    AnswersFit(c, w.storage[c.storageOffset..c.storageOffset + c.length]);
    if Reachable(w, c) {
      AnswersFit(c, w.hbm[c.address..c.address + c.length]);
    }
  }

  lemma ServedFits(w: World, allowWrites: bool, c: Command, f: Faults)
    requires CommandFits(c)
    ensures AnswerFits(Serve(w, allowWrites, c, f).1)
  {
    AnswersFit(c, seq(c.length, i => 0));
    if !OutOfBounds(|w.storage|, c) {
      MovedFits(w, c, f);
    }
  }

  /** Through the 16-bit status field: the server's statuses all fit, so a success the client
      sees is a success the server meant. */
  lemma SuccessIsTrue(
    w: World, allowWrites: bool, c: Command, f: Faults, k: Completion, mode: HostRa.ControlMode, s: HostRa.SubmitScript)
    requires CommandFits(c) && k == Serve(w, allowWrites, c, f).1
    requires FromServer(mode, s, c.requestId, k) && ClientSucceeds(mode, s, c)
    ensures k.status == SUCCESS
  {
    ServedFits(w, allowWrites, c, f);
    ServeFrame(w, allowWrites, c, f);
    CompletionRoundTrip(k);
    SuccessWasSent(mode, s, c, k);
  }

  /** The swap theorem as the client sees it: if its swap-out succeeded and later its swap-in
      of the same range succeeded, with nothing written to the range in between, its memory
      holds again what it swapped out. */
  lemma ClientSwapRestores(
    w: World, w1: World, w2: World, w3: World, allowWrites: bool, out: Command, fo: Faults, stored: Completion,
    between: seq<Event>, back: Command, fb: Faults, loaded: Completion,
    mode: HostRa.ControlMode, outScript: HostRa.SubmitScript, backScript: HostRa.SubmitScript)
    requires CommandFits(out) && CommandFits(back)
    requires out.operation == WRITE && Serve(w, allowWrites, out, fo) == (w1, stored)
    requires forall i :: 0 <= i < |between| ==> Spares(between[i], out.storageOffset, out.storageOffset + out.length)
    requires w2 == AfterAll(w1, allowWrites, between)
    requires back.operation == READ && back.storageOffset == out.storageOffset && back.length == out.length
    requires Serve(w2, allowWrites, back, fb) == (w3, loaded)
    requires FromServer(mode, outScript, out.requestId, stored) && ClientSucceeds(mode, outScript, out)
    requires FromServer(mode, backScript, back.requestId, loaded) && ClientSucceeds(mode, backScript, back)
    ensures Reachable(w, out) && Reachable(w3, back)
    ensures w3.hbm[back.address..back.address + back.length] == w.hbm[out.address..out.address + out.length]
    ensures SameOutside(w.storage, w1.storage, out.storageOffset, out.storageOffset + out.length)
    ensures w3.storage == w2.storage
  {
    SuccessIsTrue(w, allowWrites, out, fo, stored, mode, outScript);
    SuccessIsTrue(w2, allowWrites, back, fb, loaded, mode, backScript);
    SwapRestores(w, w1, w2, w3, allowWrites, out, fo, stored, between, back, fb, loaded);
  }
}
