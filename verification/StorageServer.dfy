/** The two servers of the RoCE storage control plane: the storage server, which moves data
    between its namespace and a client's HBM in either direction, and the read-only relay. */
module StorageServer {
  import opened Common
  import opened Wire

  const SUCCESS: nat := 0
  const INVALID_REQUEST: nat := 1
  const BACKEND_ERROR: nat := 2
  const UNSUPPORTED: nat := 3

  /** 64 MiB, the largest transfer either server accepts. */
  const MAX_TRANSFER: nat := 0x400_0000

  /** The server's namespace and the client memory it can reach by RDMA. */
  datatype World = World(storage: Bytes, hbm: Bytes)

  /** How the data movement of one command turns out. A step that fails may have moved the
      first `landed` bytes. */
  datatype Faults = Faults(registers: bool, storageWorks: bool, fabricWorks: bool, landed: nat)

  function MaxTransfer(size: nat): nat { if size < MAX_TRANSFER then size else MAX_TRANSFER }

  predicate OutOfBounds(size: nat, c: Command) {
    c.objectId != 0 || c.length > MaxTransfer(size) || c.storageOffset > size || c.length > size - c.storageOffset
  }

  predicate Reachable(w: World, c: Command) { c.address + c.length <= |w.hbm| }

  function Answer(c: Command, status: nat, bytes: nat, checksum: nat): Completion {
    Completion(c.requestId, status, bytes, checksum, 0)
  }

  function Succeeded(c: Command, data: Bytes): Completion { Answer(c, SUCCESS, c.length, ChecksumWord(data)) }

  function Prefix(data: Bytes, n: nat): Bytes { if n < |data| then data[..n] else data }

  // ---------------------------------------------------------------------------
  // One command

  /** Storage to HBM. */
  function MoveOut(w: World, c: Command, f: Faults): (World, Completion)
    requires !OutOfBounds(|w.storage|, c)
  {
    var data := w.storage[c.storageOffset..c.storageOffset + c.length];
    if !f.registers || !f.storageWorks || !Reachable(w, c) then (w, Answer(c, BACKEND_ERROR, 0, 0))
    else if !f.fabricWorks then
      (w.(hbm := Overwrite(w.hbm, c.address, Prefix(data, f.landed))), Answer(c, BACKEND_ERROR, 0, 0))
    else (w.(hbm := Overwrite(w.hbm, c.address, data)), Succeeded(c, data))
  }

  /** HBM to storage. */
  function MoveIn(w: World, c: Command, f: Faults): (World, Completion)
    requires !OutOfBounds(|w.storage|, c)
  {
    if !f.registers || !f.fabricWorks || !Reachable(w, c) then (w, Answer(c, BACKEND_ERROR, 0, 0))
    else
      var data := w.hbm[c.address..c.address + c.length];
      if !f.storageWorks then
        (w.(storage := Overwrite(w.storage, c.storageOffset, Prefix(data, f.landed))), Answer(c, BACKEND_ERROR, 0, 0))
      else (w.(storage := Overwrite(w.storage, c.storageOffset, data)), Succeeded(c, data))
  }

  function Serve(w: World, allowWrites: bool, c: Command, f: Faults): (World, Completion) {
    if OutOfBounds(|w.storage|, c) then (w, Answer(c, INVALID_REQUEST, 0, 0))
    else if c.operation == WRITE && !allowWrites then (w, Answer(c, UNSUPPORTED, 0, 0))
    else if c.operation == READ then MoveOut(w, c, f)
    else if c.operation == WRITE then MoveIn(w, c, f)
    else if f.registers then (w, Succeeded(c, seq(c.length, i => 0)))
    else (w, Answer(c, BACKEND_ERROR, 0, 0))
  }

  /** The relay only reads; it goes through a buffer in its own HBM. */
  function RelayServe(w: World, c: Command, f: Faults): (World, Completion) {
    if c.operation != READ then (w, Answer(c, UNSUPPORTED, 0, 0))
    else if OutOfBounds(|w.storage|, c) then (w, Answer(c, INVALID_REQUEST, 0, 0))
    else MoveOut(w, c, f)
  }

  /** The server's object: its namespace, and the staging buffer of the command at hand. */
  class Server {
    var storage: Bytes
    var hbm: Bytes
    const allowWrites: bool

    function State(): World
      reads this
    {
      World(storage, hbm)
    }

    constructor (storage: Bytes, hbm: Bytes, allowWrites: bool)
      ensures State() == World(storage, hbm) && this.allowWrites == allowWrites
    {
      this.storage, this.hbm, this.allowWrites := storage, hbm, allowWrites;
    }

    method HandleCommand(c: Command, f: Faults) returns (completion: Completion)
      modifies this
      ensures (State(), completion) == Serve(old(State()), allowWrites, c, f)
      ensures c.operation == 1 || c.operation == 2 ==>
                completion.status == (if !InBounds(|old(storage)|, c) then 1
                                      else if c.operation == 2 && !allowWrites then 3
                                      else if Moves(old(State()), c, f) then 0 else 2)
    {
      var size := |storage|;
      if c.objectId != 0 || c.length > MaxTransfer(size) || c.storageOffset > size ||
        c.length > size - c.storageOffset {
        return Answer(c, INVALID_REQUEST, 0, 0);
      }
      if c.operation == WRITE && !allowWrites {
        return Answer(c, UNSUPPORTED, 0, 0);
      }
      var staging := seq(c.length, i => 0);
      var ok := f.registers;
      if ok && c.operation == READ {
        ok := f.storageWorks && Reachable(State(), c);
        if ok {
          staging := storage[c.storageOffset..c.storageOffset + c.length];
          hbm := Overwrite(hbm, c.address, if f.fabricWorks then staging else Prefix(staging, f.landed));
          ok := f.fabricWorks;
        }
      } else if ok && c.operation == WRITE {
        ok := f.fabricWorks && Reachable(State(), c);
        if ok {
          staging := hbm[c.address..c.address + c.length];
          storage := Overwrite(storage, c.storageOffset, if f.storageWorks then staging else Prefix(staging, f.landed));
          ok := f.storageWorks;
        }
      }
      completion := Answer(c, if ok then SUCCESS else BACKEND_ERROR, if ok then c.length else 0,
                           if ok then ChecksumWord(staging) else 0);
    }

    /** The command loop of one client. */
    method ServeClient(commands: seq<Command>, faults: seq<Faults>) returns (completions: seq<Completion>)
      requires |faults| == |commands|
      modifies this
      ensures (State(), completions) == ServeAll(old(State()), allowWrites, commands, faults)
    {
      completions := [];
      for i := 0 to |commands|
        invariant (State(), completions) == ServeAll(old(State()), allowWrites, commands[..i], faults[..i])
      {
        var completion := HandleCommand(commands[i], faults[i]);
        completions := completions + [completion];
        assert commands[..i + 1][..i] == commands[..i] && faults[..i + 1][..i] == faults[..i];
      }
      assert commands[..|commands|] == commands && faults[..|commands|] == faults;
    }
  }

  /** Commands in order, each with its outcome. */
  function ServeAll(w: World, allowWrites: bool, commands: seq<Command>, faults: seq<Faults>): (World, seq<Completion>)
    requires |faults| == |commands|
  {
    if commands == [] then (w, [])
    else
      var n := |commands| - 1;
      var before := ServeAll(w, allowWrites, commands[..n], faults[..n]);
      var last := Serve(before.0, allowWrites, commands[n], faults[n]);
      (last.0, before.1 + [last.1])
  }

  // ---------------------------------------------------------------------------
  // Which commands are served, and with what answer

  /** For object 0, at most 64 MiB, and inside the namespace. */
  predicate InBounds(size: nat, c: Command) {
    c.objectId == 0 && c.length <= 0x400_0000 && c.storageOffset + c.length <= size
  }

  /** The steps that move the data work and the client's memory can be reached. */
  predicate Moves(w: World, c: Command, f: Faults) {
    f.registers && f.storageWorks && f.fabricWorks && c.address + c.length <= |w.hbm|
  }

  predicate Moved(from: Bytes, at: nat, to: Bytes, there: nat, length: nat) {
    at + length <= |from| && there + length <= |to| && from[at..at + length] == to[there..there + length]
  }

  /** The server's answer: 1 for a command that is out of bounds, 3 for a write it does not
      permit, and otherwise 0 or 2 by how the data moves. A read does not depend on the write
      permission. Success carries the length and the checksum of the bytes that were moved. */
  lemma ServedExactly(w: World, allowWrites: bool, c: Command, f: Faults)
    requires c.operation == 1 || c.operation == 2
    ensures var (w', k) := Serve(w, allowWrites, c, f);
            var permitted := c.operation == 1 || allowWrites;
            && k.status == (if !InBounds(|w.storage|, c) then 1 else if !permitted then 3
                            else if Moves(w, c, f) then 0 else 2)
            && (k.status != 0 ==> k.bytes == 0 && k.checksum == 0) && k.requestId == c.requestId && k.flags == 0
            && (k.status == 0 && c.operation == 1 ==>
                  && w'.storage == w.storage && Moved(w.storage, c.storageOffset, w'.hbm, c.address, c.length)
                  && k.bytes == c.length && k.checksum == ChecksumWord(w'.hbm[c.address..c.address + c.length]))
            && (k.status == 0 && c.operation == 2 ==>
                  && w'.hbm == w.hbm && Moved(w.hbm, c.address, w'.storage, c.storageOffset, c.length)
                  && k.bytes == c.length
                  && k.checksum == ChecksumWord(w'.storage[c.storageOffset..c.storageOffset + c.length]))
    ensures c.operation == 1 ==> Serve(w, allowWrites, c, f) == Serve(w, !allowWrites, c, f)
  {
    if c.operation == 1 {
      if Serve(w, allowWrites, c, f).1.status == SUCCESS {
        SwapInLoads(w, allowWrites, c, f);
      }
    } else if Serve(w, allowWrites, c, f).1.status == SUCCESS {
      SwapOutStores(w, allowWrites, c, f);
    }
  }

  /** The relay's answer: 3 for anything but a read, and otherwise as the server's. */
  lemma RelayServedExactly(w: World, c: Command, f: Faults)
    ensures var (w', k) := RelayServe(w, c, f);
            && k.status == (if c.operation != 1 then 3 else if !InBounds(|w.storage|, c) then 1
                            else if Moves(w, c, f) then 0 else 2)
            && k.requestId == c.requestId && k.flags == 0 && w'.storage == w.storage
            && (k.status != 0 ==> k.bytes == 0 && k.checksum == 0)
            && (k.status == 0 ==>
                  && Moved(w.storage, c.storageOffset, w'.hbm, c.address, c.length) && k.bytes == c.length
                  && k.checksum == ChecksumWord(w'.hbm[c.address..c.address + c.length]))
            && (k.status == 1 || k.status == 3 ==> w' == w)
  {
    if c.operation == 1 {
      ServedExactly(w, false, c, f);
      assert !OutOfBounds(|w.storage|, c) ==> RelayServe(w, c, f) == Serve(w, false, c, f);
      MoveOutKeeps(w, c, f);
    }
  }

  lemma MoveOutKeeps(w: World, c: Command, f: Faults)
    ensures !OutOfBounds(|w.storage|, c) ==> MoveOut(w, c, f).0.storage == w.storage
  {
  }

  // ---------------------------------------------------------------------------
  // What commands change

  predicate SameOutside(a: Bytes, b: Bytes, lo: nat, hi: nat) {
    |a| == |b| && forall i :: 0 <= i < |a| && (i < lo || hi <= i) ==> a[i] == b[i]
  }

  lemma OverwriteOutside(a: Bytes, offset: nat, data: Bytes, hi: nat)
    requires offset + |data| <= hi <= |a|
    ensures SameOutside(a, Overwrite(a, offset, data), offset, hi)
  {
  }

  lemma MoveOutFrame(w: World, c: Command, f: Faults)
    requires !OutOfBounds(|w.storage|, c)
    ensures var w' := MoveOut(w, c, f).0;
            w'.storage == w.storage && SameOutside(w.hbm, w'.hbm, c.address, c.address + c.length)
  {
    if Reachable(w, c) {
      var data := w.storage[c.storageOffset..c.storageOffset + c.length];
      OverwriteOutside(w.hbm, c.address, data, c.address + c.length);
      OverwriteOutside(w.hbm, c.address, Prefix(data, f.landed), c.address + c.length);
    }
  }

  lemma MoveInFrame(w: World, c: Command, f: Faults)
    requires !OutOfBounds(|w.storage|, c)
    ensures var w' := MoveIn(w, c, f).0;
            w'.hbm == w.hbm && SameOutside(w.storage, w'.storage, c.storageOffset, c.storageOffset + c.length)
  {
    if Reachable(w, c) {
      var data := w.hbm[c.address..c.address + c.length];
      OverwriteOutside(w.storage, c.storageOffset, data, c.storageOffset + c.length);
      OverwriteOutside(w.storage, c.storageOffset, Prefix(data, f.landed), c.storageOffset + c.length);
    }
  }

  /** A command changes storage only if it is an admitted write, and only inside its range;
      it changes HBM only in its own window; sizes never change; and the answer carries the
      command's id and, unless it succeeded, no bytes. */
  lemma ServeFrame(w: World, allowWrites: bool, c: Command, f: Faults)
    ensures var (w', k) := Serve(w, allowWrites, c, f);
            && SameOutside(w.storage, w'.storage, c.storageOffset, c.storageOffset + c.length)
            && SameOutside(w.hbm, w'.hbm, c.address, c.address + c.length)
            && (w'.storage != w.storage ==> c.operation == WRITE && allowWrites && !OutOfBounds(|w.storage|, c))
            && k.requestId == c.requestId && k.bytes == (if k.status == SUCCESS then c.length else 0)
  {
    if !OutOfBounds(|w.storage|, c) {
      MoveOutFrame(w, c, f);
      MoveInFrame(w, c, f);
    }
  }

  /** The write gate: no command sequence changes storage when writes are not allowed, whatever
      fails along the way. */
  lemma {:induction false} WriteGate(w: World, commands: seq<Command>, faults: seq<Faults>)
    requires |faults| == |commands|
    ensures ServeAll(w, false, commands, faults).0.storage == w.storage
  {
    if commands != [] {
      var n := |commands| - 1;
      WriteGate(w, commands[..n], faults[..n]);
      ServeFrame(ServeAll(w, false, commands[..n], faults[..n]).0, false, commands[n], faults[n]);
    }
  }

  /** One answer for each command, in order, with its own id. */
  lemma {:induction false} AnswersInOrder(w: World, allowWrites: bool, commands: seq<Command>, faults: seq<Faults>)
    requires |faults| == |commands|
    ensures var answers := ServeAll(w, allowWrites, commands, faults).1;
            |answers| == |commands| && forall i :: 0 <= i < |commands| ==> answers[i].requestId == commands[i].requestId
  {
    if commands != [] {
      var n := |commands| - 1;
      AnswersInOrder(w, allowWrites, commands[..n], faults[..n]);
      ServeFrame(ServeAll(w, allowWrites, commands[..n], faults[..n]).0, allowWrites, commands[n], faults[n]);
    }
  }

  /** The client's own range checks, against what the server announced when it opened. */
  predicate ClientChecks(capacity: nat, maxTransfer: nat, offset: nat, length: nat) {
    length != 0 && length <= maxTransfer && offset <= capacity && length <= capacity - offset
  }

  /** A request that passes them, for object 0, is never answered invalid-request; and the
      server answers invalid-request exactly for the others. */
  lemma CheckedNeverInvalid(w: World, allowWrites: bool, c: Command, f: Faults)
    requires c.length != 0
    ensures Serve(w, allowWrites, c, f).1.status == INVALID_REQUEST <==>
            c.objectId != 0 || !ClientChecks(|w.storage|, MaxTransfer(|w.storage|), c.storageOffset, c.length)
  {
  }

  // ---------------------------------------------------------------------------
  // Swapping out and back in

  /** What can happen between two requests: other commands, and the client's own use of its
      memory. */
  datatype Event = Request(command: Command, faults: Faults) | ClientUses(hbm: Bytes)

  function After(w: World, allowWrites: bool, ev: Event): World {
    match ev
    case Request(c, f) => Serve(w, allowWrites, c, f).0
    case ClientUses(hbm) => w.(hbm := hbm)
  }

  function AfterAll(w: World, allowWrites: bool, events: seq<Event>): World {
    if events == [] then w
    else After(AfterAll(w, allowWrites, events[..|events| - 1]), allowWrites, events[|events| - 1])
  }

  /** No write into the range. */
  predicate Spares(ev: Event, lo: nat, hi: nat) {
    ev.Request? && ev.command.operation == WRITE ==>
      hi <= ev.command.storageOffset || ev.command.storageOffset + ev.command.length <= lo
  }

  lemma {:induction false} RangeKept(w: World, allowWrites: bool, events: seq<Event>, lo: nat, hi: nat)
    requires lo <= hi <= |w.storage| && forall i :: 0 <= i < |events| ==> Spares(events[i], lo, hi)
    ensures var w' := AfterAll(w, allowWrites, events);
            |w'.storage| == |w.storage| && w'.storage[lo..hi] == w.storage[lo..hi]
  {
    if events != [] {
      var n := |events| - 1;
      RangeKept(w, allowWrites, events[..n], lo, hi);
      var w1 := AfterAll(w, allowWrites, events[..n]);
      var ev := events[n];
      assert Spares(ev, lo, hi);
      if ev.Request? {
        ServeFrame(w1, allowWrites, ev.command, ev.faults);
        var w' := After(w1, allowWrites, ev);
        assert w'.storage[lo..hi] == w1.storage[lo..hi];
      }
    }
  }

  lemma SwapOutStores(w: World, allowWrites: bool, c: Command, f: Faults)
    requires c.operation == WRITE && Serve(w, allowWrites, c, f).1.status == SUCCESS
    ensures var w' := Serve(w, allowWrites, c, f).0;
            && Reachable(w, c) && c.storageOffset + c.length <= |w.storage| && |w'.storage| == |w.storage|
            && w'.storage[c.storageOffset..c.storageOffset + c.length] == w.hbm[c.address..c.address + c.length]
            && SameOutside(w.storage, w'.storage, c.storageOffset, c.storageOffset + c.length) && w'.hbm == w.hbm
  {
  }

  lemma SwapInLoads(w: World, allowWrites: bool, c: Command, f: Faults)
    requires c.operation == READ && Serve(w, allowWrites, c, f).1.status == SUCCESS
    ensures var w' := Serve(w, allowWrites, c, f).0;
            && Reachable(w, c) && c.storageOffset + c.length <= |w.storage| && |w'.hbm| == |w.hbm|
            && w'.hbm[c.address..c.address + c.length] == w.storage[c.storageOffset..c.storageOffset + c.length]
            && SameOutside(w.hbm, w'.hbm, c.address, c.address + c.length) && w'.storage == w.storage
  {
  }

  /** The swap theorem: after a successful swap-out, any use of the client's memory and any
      other requests that do not write into the range, a successful swap-in of the range puts
      back exactly the bytes that were swapped out; the swap-out changed no other storage
      byte, and the swap-in none at all. */
  lemma SwapRestores(
    w: World, w1: World, w2: World, w3: World, allowWrites: bool, out: Command, fo: Faults, stored: Completion,
    between: seq<Event>, back: Command, fb: Faults, loaded: Completion)
    requires out.operation == WRITE && Serve(w, allowWrites, out, fo) == (w1, stored) && stored.status == SUCCESS
    requires forall i :: 0 <= i < |between| ==> Spares(between[i], out.storageOffset, out.storageOffset + out.length)
    requires w2 == AfterAll(w1, allowWrites, between)
    requires back.operation == READ && back.storageOffset == out.storageOffset && back.length == out.length
    requires Serve(w2, allowWrites, back, fb) == (w3, loaded) && loaded.status == SUCCESS
    ensures Reachable(w, out) && Reachable(w3, back)
    ensures w3.hbm[back.address..back.address + back.length] == w.hbm[out.address..out.address + out.length]
    ensures SameOutside(w.storage, w1.storage, out.storageOffset, out.storageOffset + out.length)
    ensures w3.storage == w2.storage
  {
    SwapOutStores(w, allowWrites, out, fo);
    RangeKept(w1, allowWrites, between, out.storageOffset, out.storageOffset + out.length);
    SwapInLoads(w2, allowWrites, back, fb);
  }
}
