/** The storage agent: connections share a table of open files. Each method is one atomic
    step of a connection thread, the accept loop or the stopping thread; any interleaving of
    them is a sequence of calls. */
module Agent {
  import opened Common
  import opened Fields
  import opened Framing
  import opened ResourceLog
  import opened AgentState

  // Status codes, as 32-bit words on the wire.
  datatype Status = StatusOk | Protocol | InvalidArgument | Remote | IoFailure

  function Code(s: Status): nat {
    match s
    case StatusOk => 0
    case InvalidArgument => 1
    case IoFailure => 2
    case Remote => 6
    case Protocol => 7
  }

  // ---------------------------------------------------------------------------
  // Responses

  /** A response without a result: the status, zeros where the result would be, a message. */
  function StatusFrame(request: Frame, status: Status, message: Bytes): Frame {
    var kind := ResponseKind(request.kind);
    var zeros := if kind == OPEN_RESP then [F64(0), F64(0)] else if kind == READ_RESP then [F64(0), F32(0)] else [];
    Frame(kind, request.requestId, AppendFields([F32(Code(status))] + zeros + [Text(message)]))
  }

  function OpenedFrame(request: Frame, id: nat, size: nat): Frame {
    Frame(OPEN_RESP, request.requestId, AppendFields([F32(0), F64(id), F64(size), Text([])]))
  }

  function PayloadFrame(request: Frame, payload: Bytes): Frame {
    Frame(READ_RESP, request.requestId,
          AppendFields([F32(0), F64(|payload|), F32(ChecksumWord(payload)), Text([]), Raw(payload)]))
  }

  /** A successful read response is twenty bytes longer than its payload, so it always fits. */
  lemma ReadFits(request: Frame, payload: Bytes)
    requires |payload| <= MAX_READ
    ensures |PayloadFrame(request, payload).body| == READ_FIXED + |payload| <= MAX_BODY
  {
    var sum := F32(ChecksumWord(payload));
    AppendOne(F32(0), [F64(|payload|), sum, Text([]), Raw(payload)]);
    AppendOne(F64(|payload|), [sum, Text([]), Raw(payload)]);
    AppendOne(sum, [Text([]), Raw(payload)]);
    AppendOne(Text([]), [Raw(payload)]);
    AppendOne(Raw(payload), []);
  }

  lemma AppendOne(f: Field, fields: seq<Field>)
    ensures AppendFields([f] + fields) == AppendField(f) + AppendFields(fields)
  {
    assert ([f] + fields)[1..] == fields;
  }

  /** What the client finds in a successful read response. */
  lemma ReadBack(request: Frame, payload: Bytes)
    requires |payload| <= MAX_READ
    ensures TakeFields(PayloadFrame(request, payload).body, [S32, S64, S32, SText, SRaw(|payload|)]) ==
            Some(([F32(0), F64(|payload|), F32(ChecksumWord(payload)), Text([]), Raw(payload)], []))
  {
    ReadBackFields(payload, ChecksumWord(payload));
  }

  lemma ReadBackFields(payload: Bytes, sum: nat)
    requires |payload| <= MAX_READ && sum < U32
    ensures var fields := [F32(0), F64(|payload|), F32(sum), Text([]), Raw(payload)];
            TakeFields(AppendFields(fields), [S32, S64, S32, SText, SRaw(|payload|)]) == Some((fields, []))
  {
    var fields := [F32(0), F64(|payload|), F32(sum), Text([]), Raw(payload)];
    FieldsRoundTrip(fields, []);
    assert AppendFields(fields) + [] == AppendFields(fields);
    assert Shapes(fields) == [S32, S64, S32, SText, SRaw(|payload|)];
  }

  // ---------------------------------------------------------------------------
  // What a request is answered with

  /** Exactly `n` 64-bit words and nothing after them. */
  function Words(body: Bytes, n: nat): (r: Option<seq<nat>>)
    ensures r.Some? ==> |r.value| == n
  {
    if |body| != 8 * n then None
    else Some(seq(n, i requires 0 <= i < n => Decode(Big, body[8 * i..8 * i + 8])))
  }

  /** A text and nothing after it. */
  predicate OneText(body: Bytes) {
    TakeField(body, SText).Some? && TakeField(body, SText).value.1 == []
  }

  function Ascii(s: string): Bytes { seq(|s|, i requires 0 <= i < |s| => (s[i] as int % 256) as byte) }

  datatype OpenResult = OpenFails(error: Bytes) | Opens(size: nat)
  datatype DupResult = DupFails(error: Bytes) | Dups
  datatype ReadOutcome = ReadFails(error: Bytes) | Payload(bytes: Bytes)

  /** How the file store answers right now: an open by path, a duplication by descriptor, a read
      by descriptor, offset and length. The texts of failures come from the operating system. */
  datatype Store = Store(open: Bytes -> OpenResult, dup: nat -> DupResult, read: (nat, nat, nat) -> ReadOutcome)

  function PathOf(body: Bytes): Bytes
    requires OneText(body)
  {
    TakeField(body, SText).value.0.bytes
  }

  function OpenReply(request: Frame, store: Store): Option<Frame> {
    if !OneText(request.body) then Some(StatusFrame(request, Protocol, Ascii("malformed OPEN_REQ")))
    else
      match store.open(PathOf(request.body))
      case OpenFails(error) => Some(StatusFrame(request, Remote, error))
      case Opens(_) => None
  }

  function ReadReply(files: map<nat, nat>, request: Frame, store: Store): Option<Frame> {
    match Words(request.body, 3)
    case None => Some(StatusFrame(request, Protocol, Ascii("malformed READ_REQ")))
    case Some(words) =>
      if words[2] > MAX_READ then
        Some(StatusFrame(request, InvalidArgument, Ascii("READ_REQ length exceeds maximum response payload")))
      else if words[0] !in files then Some(StatusFrame(request, Remote, Ascii("unknown file id")))
      else
        match store.dup(files[words[0]])
        case DupFails(error) => Some(StatusFrame(request, IoFailure, Ascii("dup failed: ") + error))
        case Dups => None
  }

  function CloseReply(request: Frame): Frame {
    if Words(request.body, 1) == None then StatusFrame(request, Protocol, Ascii("malformed CLOSE_REQ"))
    else StatusFrame(request, StatusOk, [])
  }

  /** The response a request gets at once; None if it first needs a descriptor of its own. */
  function Immediate(files: map<nat, nat>, request: Frame, store: Store): Option<Frame> {
    if request.kind == HELLO then Some(StatusFrame(request, StatusOk, Ascii("mock,hccl-hcomm-planned")))
    else if request.kind == OPEN_REQ then OpenReply(request, store)
    else if request.kind == READ_REQ then ReadReply(files, request, store)
    else if request.kind == CLOSE_REQ then Some(CloseReply(request))
    else Some(StatusFrame(request, Protocol, Ascii("unknown frame type")))
  }

  function ReadDone(request: Frame, outcome: ReadOutcome): Frame {
    if outcome.Payload? then PayloadFrame(request, outcome.bytes) else StatusFrame(request, Remote, outcome.error)
  }

  /** The file table after a request: only a close changes it. */
  function FilesAfter(files: map<nat, nat>, request: Frame): map<nat, nat> {
    if request.kind == CLOSE_REQ && Words(request.body, 1).Some? then files - {Words(request.body, 1).value[0]}
      else files
  }

  /** Where a connection goes after a response: on, unless the response does not fit or the
      peer does not take it. */
  function Next(response: Frame, peerTakes: bool): Connection {
    if peerTakes && |response.body| <= MAX_BODY then Waiting else Broken
  }

  function Outcome(response: Frame, peerTakes: bool): Exchange {
    Exchange(response, Next(response, peerTakes) == Waiting)
  }

  /** A request has been taken: it has its response, or it is the connection's work. */
  predicate Taken(reply: Option<Frame>, peerTakes: bool, b: Book, b': Book, c: nat, request: Frame, state: Connection) {
    match reply
    case Some(response) =>
      state == Next(response, peerTakes) && b' == Answered(b, c, request, Outcome(response, peerTakes))
    case None =>
      && b' == b.(received := b.received + [Received(c, request)])
      && Working(state) && state.serial == |b.received| && state.request == request
  }

  // ---------------------------------------------------------------------------
  // What that means for the peer

  /** The response made for request number `k`, if it has been made. */
  function AnswerTo(b: Book, k: nat): Option<Frame> {
    if k in b.answered then Some(b.answered[k].response) else None
  }

  /** The response has the given type and the request's id, and its body is the given fields. */
  predicate Says(answer: Option<Frame>, kind: nat, requestId: nat, fields: seq<Field>) {
    answer == Some(Frame(kind, requestId, AppendFields(fields)))
  }

  lemma TakenAnswers(
    reply: Option<Frame>, peerTakes: bool, b: Book, b': Book, c: nat, request: Frame, state: Connection)
    requires Taken(reply, peerTakes, b, b', c, request, state) && |b.received| !in b.answered
    ensures AnswerTo(b', |b.received|) == reply && b'.received == b.received + [Received(c, request)]
    ensures |b.received| in b'.answered <==> !Working(state)
  {
  }

  /** READ_REQ for `length` bytes at `offset` of file `id`. */
  predicate ReadRequest(request: Frame, id: nat, offset: nat, length: nat) {
    && request.kind == 5 && id < U64 && offset < U64 && length < U64
    && request.body == AppendFields([F64(id), F64(offset), F64(length)])
  }

  /** It becomes a read of that file, at that place, on a duplicate of the file's descriptor,
      exactly if the response could hold the bytes, the file is open and the duplication works.
      Otherwise the response says which of these it was. */
  predicate ReadHandled(
    files: map<nat, nat>, request: Frame, store: Store, serial: nat, fd: nat, answer: Option<Frame>, state: Connection,
    id: nat, offset: nat, length: nat)
  {
    if length > 0x7FF_FFEC then
      Says(answer, 6, request.requestId,
           [F32(1), F64(0), F32(0), Text(Ascii("READ_REQ length exceeds maximum response payload"))])
    else if id !in files then
      Says(answer, 6, request.requestId, [F32(6), F64(0), F32(0), Text(Ascii("unknown file id"))])
    else
      match store.dup(files[id])
      case DupFails(error) =>
        Says(answer, 6, request.requestId, [F32(2), F64(0), F32(0), Text(Ascii("dup failed: ") + error)])
      case Dups => answer == None && state == Reading(serial, request, fd, files[id], offset, length)
  }

  /** The bytes with their number and checksum, or the store's error. */
  predicate ReadAnswered(answer: Option<Frame>, requestId: nat, outcome: ReadOutcome) {
    match outcome
    case Payload(bytes) =>
      Says(answer, 6, requestId, [F32(0), F64(|bytes|), F32(ChecksumWord(bytes)), Text([]), Raw(bytes)])
    case ReadFails(error) => Says(answer, 6, requestId, [F32(6), F64(0), F32(0), Text(error)])
  }

  /** OPEN_REQ for a path. */
  predicate OpenRequest(request: Frame, path: Bytes) {
    request.kind == 3 && |path| < U32 && request.body == AppendFields([Text(path)])
  }

  /** It becomes a file to enter exactly if the store opens that path. */
  predicate OpenHandled(
    request: Frame, store: Store, serial: nat, fd: nat, answer: Option<Frame>, state: Connection, path: Bytes)
  {
    match store.open(path)
    case OpenFails(error) => Says(answer, 4, request.requestId, [F32(6), F64(0), F64(0), Text(error)])
    case Opens(size) => answer == None && state == Inserting(serial, request, fd, size)
  }

  /** CLOSE_REQ for a file. */
  predicate CloseRequest(request: Frame, id: nat) {
    request.kind == 7 && id < U64 && request.body == AppendFields([F64(id)])
  }

  /** The bodies that are none of these. */
  predicate Malformed(request: Frame) {
    || (request.kind == 3 && (|request.body| < 4 || Decode(Big, request.body[..4]) != |request.body| - 4))
    || (request.kind == 5 && |request.body| != 24)
    || (request.kind == 7 && |request.body| != 8)
  }

  /** A malformed request is answered by its own type of response, with zeros for a result. */
  predicate MalformedHandled(request: Frame, answer: Option<Frame>) {
    if request.kind == 3 then
      Says(answer, 4, request.requestId, [F32(7), F64(0), F64(0), Text(Ascii("malformed OPEN_REQ"))])
    else if request.kind == 5 then
      Says(answer, 6, request.requestId, [F32(7), F64(0), F32(0), Text(Ascii("malformed READ_REQ"))])
    else Says(answer, 8, request.requestId, [F32(7), Text(Ascii("malformed CLOSE_REQ"))])
  }

  /** The 64-bit word at place `i` of a body. */
  function WordAt(body: Bytes, i: nat): nat
    requires 8 * i + 8 <= |body|
  {
    Decode(Big, body[8 * i..8 * i + 8])
  }

  lemma WordFits(body: Bytes, i: nat)
    requires 8 * i + 8 <= |body|
    ensures WordAt(body, i) < U64 && AppendField(F64(WordAt(body, i))) == body[8 * i..8 * i + 8]
  {
    Powers();
    EncodeDecode(Big, body[8 * i..8 * i + 8]);
  }

  /** Between them these are all the read requests there are, */
  lemma EveryReadCovered(request: Frame)
    requires request.kind == 5
    ensures !Malformed(request) ==>
              ReadRequest(request, WordAt(request.body, 0), WordAt(request.body, 1), WordAt(request.body, 2))
  {
    var b := request.body;
    if |b| == 24 {
      WordFits(b, 0);
      WordFits(b, 1);
      WordFits(b, 2);
      var x, y, z := F64(WordAt(b, 0)), F64(WordAt(b, 1)), F64(WordAt(b, 2));
      AppendOne(x, [y, z]);
      AppendOne(y, [z]);
      AppendOne(z, []);
      assert [x] + [y, z] == [x, y, z] && [y] + [z] == [y, z] && [z] + [] == [z];
      assert b == b[0..8] + (b[8..16] + b[16..24]);
    }
  }

  /** and all the open and close requests. */
  lemma EveryOtherCovered(request: Frame)
    requires !Malformed(request)
    ensures request.kind == 3 ==> OpenRequest(request, request.body[4..])
    ensures request.kind == 7 ==> CloseRequest(request, WordAt(request.body, 0))
  {
    var b := request.body;
    if request.kind == 3 {
      Powers();
      EncodeDecode(Big, b[..4]);
      AppendOne(Text(b[4..]), []);
      assert [Text(b[4..])] + [] == [Text(b[4..])] && b == b[..4] + b[4..];
    } else if request.kind == 7 {
      WordFits(b, 0);
      AppendOne(F64(WordAt(b, 0)), []);
      assert [F64(WordAt(b, 0))] + [] == [F64(WordAt(b, 0))] && b == b[0..8];
    }
  }

  /** What becomes of a request, whatever it is. */
  ghost predicate Understood(
    files: map<nat, nat>, request: Frame, store: Store, serial: nat, fd: nat, answer: Option<Frame>, state: Connection,
    files': map<nat, nat>)
  {
    && (forall id, offset, length :: ReadRequest(request, id, offset, length) ==>
          ReadHandled(files, request, store, serial, fd, answer, state, id, offset, length))
    && (forall path :: OpenRequest(request, path) ==> OpenHandled(request, store, serial, fd, answer, state, path))
    && (forall id :: CloseRequest(request, id) ==>
          files' == files - {id} && Says(answer, 8, request.requestId, [F32(0), Text([])]))
    && (Malformed(request) ==> MalformedHandled(request, answer))
    && (request.kind == 1 ==> Says(answer, 2, request.requestId, [F32(0), Text(Ascii("mock,hccl-hcomm-planned"))]))
    && (request.kind !in {1, 3, 5, 7} ==>
          Says(answer, 9, request.requestId, [F32(7), Text(Ascii("unknown frame type"))]))
    && (request.kind != 7 || Malformed(request) ==> files' == files)
  }

  /** The work a request leaves to do. */
  function WorkOf(files: map<nat, nat>, request: Frame, store: Store, serial: nat, fd: nat): Connection {
    if request.kind == OPEN_REQ && OneText(request.body) && store.open(PathOf(request.body)).Opens? then
      Inserting(serial, request, fd, store.open(PathOf(request.body)).size)
    else
      match Words(request.body, 3)
      case Some(words) =>
        if words[0] in files then Reading(serial, request, fd, files[words[0]], words[1], words[2]) else Waiting
      case None => Waiting
  }

  lemma ThreeWords(a: nat, b: nat, c: nat)
    requires a < U64 && b < U64 && c < U64
    ensures Words(AppendFields([F64(a), F64(b), F64(c)]), 3) == Some([a, b, c])
  {
    AppendOne(F64(a), [F64(b), F64(c)]);
    AppendOne(F64(b), [F64(c)]);
    AppendOne(F64(c), []);
    var x, y, z := Encode(Big, a, 8), Encode(Big, b, 8), Encode(Big, c, 8);
    var body := AppendFields([F64(a), F64(b), F64(c)]);
    assert [F64(c)] + [] == [F64(c)] && body == x + (y + z);
    Powers();
    DecodeEncode(Big, a, 8);
    DecodeEncode(Big, b, 8);
    DecodeEncode(Big, c, 8);
    assert body[0..8] == x && body[8..16] == y && body[16..24] == z;
    assert Words(body, 3).value == [a, b, c];
  }

  lemma OneWord(a: nat)
    requires a < U64
    ensures Words(AppendFields([F64(a)]), 1) == Some([a])
  {
    AppendOne(F64(a), []);
    var body := AppendFields([F64(a)]);
    assert [F64(a)] + [] == [F64(a)] && body == Encode(Big, a, 8) && body == body[0..8];
    Powers();
    DecodeEncode(Big, a, 8);
    assert Words(body, 1).value == [a];
  }

  lemma OnePath(path: Bytes)
    requires |path| < U32
    ensures var body := AppendFields([Text(path)]); OneText(body) && PathOf(body) == path
  {
    AppendOne(Text(path), []);
    FieldRoundTrip(Text(path), []);
    assert AppendFields([Text(path)]) == AppendField(Text(path)) + [];
  }

  lemma StatusFields(request: Frame, status: Status, message: Bytes)
    ensures request.kind == 3 ==>
              Says(Some(StatusFrame(request, status, message)), 4, request.requestId,
                   [F32(Code(status)), F64(0), F64(0), Text(message)])
    ensures request.kind == 5 ==>
              Says(Some(StatusFrame(request, status, message)), 6, request.requestId,
                   [F32(Code(status)), F64(0), F32(0), Text(message)])
    ensures request.kind !in {3, 5} ==>
              Says(Some(StatusFrame(request, status, message)), ResponseKind(request.kind), request.requestId,
                   [F32(Code(status)), Text(message)])
  {
    assert [F32(Code(status))] + [F64(0), F64(0)] + [Text(message)] ==
           [F32(Code(status)), F64(0), F64(0), Text(message)];
    assert [F32(Code(status))] + [F64(0), F32(0)] + [Text(message)] ==
           [F32(Code(status)), F64(0), F32(0), Text(message)];
    assert [F32(Code(status))] + [] + [Text(message)] == [F32(Code(status)), Text(message)];
  }

  /** The connection after a request: as the answer says, or at work. */
  predicate StateFits(
    files: map<nat, nat>, request: Frame, store: Store, serial: nat, fd: nat, answer: Option<Frame>, state: Connection)
  {
    answer == Immediate(files, request, store) &&
      (answer == None ==> state == WorkOf(files, request, store, serial, fd))
  }

  lemma ReadMeans(
    files: map<nat, nat>, request: Frame, store: Store, serial: nat, fd: nat, answer: Option<Frame>, state: Connection,
    id: nat, offset: nat, length: nat)
    requires StateFits(files, request, store, serial, fd, answer, state) && ReadRequest(request, id, offset, length)
    ensures ReadHandled(files, request, store, serial, fd, answer, state, id, offset, length)
  {
    ThreeWords(id, offset, length);
    StatusFields(request, InvalidArgument, Ascii("READ_REQ length exceeds maximum response payload"));
    StatusFields(request, Remote, Ascii("unknown file id"));
    if id in files && store.dup(files[id]).DupFails? {
      StatusFields(request, IoFailure, Ascii("dup failed: ") + store.dup(files[id]).error);
    }
  }

  lemma OpenMeans(
    files: map<nat, nat>, request: Frame, store: Store, serial: nat, fd: nat, answer: Option<Frame>, state: Connection,
    path: Bytes)
    requires StateFits(files, request, store, serial, fd, answer, state) && OpenRequest(request, path)
    ensures OpenHandled(request, store, serial, fd, answer, state, path)
  {
    OnePath(path);
    if store.open(path).OpenFails? {
      StatusFields(request, Remote, store.open(path).error);
    }
  }

  lemma MalformedMeans(files: map<nat, nat>, request: Frame, store: Store)
    requires Malformed(request)
    ensures MalformedHandled(request, Immediate(files, request, store)) && FilesAfter(files, request) == files
  {
    StatusFields(request, Protocol, Ascii("malformed OPEN_REQ"));
    StatusFields(request, Protocol, Ascii("malformed READ_REQ"));
    StatusFields(request, Protocol, Ascii("malformed CLOSE_REQ"));
  }

  lemma OthersMean(files: map<nat, nat>, request: Frame, store: Store)
    requires request.kind !in {3, 5, 7}
    ensures var answer := Immediate(files, request, store);
            if request.kind == 1
            then Says(answer, 2, request.requestId, [F32(0), Text(Ascii("mock,hccl-hcomm-planned"))])
            else Says(answer, 9, request.requestId, [F32(7), Text(Ascii("unknown frame type"))])
  {
    StatusFields(request, StatusOk, Ascii("mock,hccl-hcomm-planned"));
    StatusFields(request, Protocol, Ascii("unknown frame type"));
  }

  lemma CloseMeans(files: map<nat, nat>, request: Frame, store: Store, id: nat)
    requires CloseRequest(request, id)
    ensures FilesAfter(files, request) == files - {id}
    ensures Says(Immediate(files, request, store), 8, request.requestId, [F32(0), Text([])])
  {
    OneWord(id);
    StatusFields(request, StatusOk, []);
  }

  /** The decision about a request is what the peer was promised. */
  lemma RequestMeans(
    files: map<nat, nat>, request: Frame, store: Store, serial: nat, fd: nat, answer: Option<Frame>, state: Connection)
    requires StateFits(files, request, store, serial, fd, answer, state)
    ensures Understood(files, request, store, serial, fd, answer, state, FilesAfter(files, request))
  {
    forall id, offset, length | ReadRequest(request, id, offset, length)
      ensures ReadHandled(files, request, store, serial, fd, answer, state, id, offset, length)
    {
      ReadMeans(files, request, store, serial, fd, answer, state, id, offset, length);
    }
    forall path | OpenRequest(request, path)
      ensures OpenHandled(request, store, serial, fd, answer, state, path)
    {
      OpenMeans(files, request, store, serial, fd, answer, state, path);
    }
    forall id | CloseRequest(request, id)
      ensures FilesAfter(files, request) == files - {id}
      ensures Says(answer, 8, request.requestId, [F32(0), Text([])])
    {
      CloseMeans(files, request, store, id);
    }
    if Malformed(request) {
      MalformedMeans(files, request, store);
    }
    if request.kind !in {3, 5, 7} {
      OthersMean(files, request, store);
    }
  }

  /** How far a start gets: no socket, a socket that cannot be bound or listened on, or a
      serving thread. */
  datatype StartResult = NoSocket | SetupFails | Listens

  class StorageAgent {
    var running: bool
    /** The serving thread has not been joined. */
    var serving: bool
    /** A second serving thread was put in the place of one that had not been joined. */
    var terminated: bool
    /** How many stops have yet to close the listener, and how many have yet to close the files. */
    var stops: nat
    var sweeps: nat
    var listener: Option<nat>
    var connections: map<nat, Connection>
    var files: map<nat, nat>
    var nextFileId: nat
    var nextFd: nat
    /** How many requests have been taken. */
    var taken: nat
    /** The same together with the past: descriptors opened and closed and who owns the open
        ones, requests and responses, file numbers given out, starts and stops. */
    ghost var now: View

    ghost function Fields(): View
      reads this
    {
      View(now.table.(nextFd := nextFd, listener := listener, connections := connections, files := files,
                      nextFileId := nextFileId),
           Gear(now.gear.phases, running, serving, terminated, stops, sweeps), now.book)
    }

    /** Descriptors, file numbers and requests are accounted for, starts and stops are in step,
        and nothing is served once the agent has stopped. */
    ghost predicate Valid()
      reads this
    {
      Good(now) && Fields() == now && taken == |now.book.received|
    }

    constructor ()
      ensures Valid() && now == NEW
    {
      running, serving, terminated, stops, sweeps := false, false, false, 0, 0;
      listener, connections, files, nextFileId, nextFd, taken := None, map[], map[], 1, 0, 0;
      now := NEW;
      NewGood();
    }

    // -------------------------------------------------------------------------
    // Start, accept, hang up, stop

    /** Opens the listening socket, unless the agent is running; a failure on the way closes it
        again. Only the running flag is looked at: a listener that a stop under way has not
        closed yet is forgotten. */
    method Start(result: StartResult)
      requires Valid() && !terminated
      modifies this`nextFd, this`now, this`listener, this`running, this`serving, this`terminated
      ensures Valid() && Onward(old(now), now) && (running <==> old(running) || result == Listens)
      ensures now.gear.phases == if old(running) then old(now.gear.phases) else old(now.gear.phases) + [Started]
      ensures terminated <==> !old(running) && old(serving) && result == Listens
    {
      if running {
        return;
      }
      Forget();
      match result {
        case NoSocket =>
        case SetupFails => TurnAway(Listener);
        case Listens => Listen();
      }
    }

    /** A start begins by overwriting the listener. */
    method Forget()
      requires Valid() && !running
      modifies this`now, this`listener
      ensures Valid() && Onward(old(now), now) && listener == None
      ensures now.gear.phases == old(now.gear.phases) + [Started]
    {
      ghost var next := Forgets(now);
      ForgetsGood(now);
      listener := None;
      now := next;
    }

    method Listen()
      requires Valid() && listener == None && !running
      modifies this`nextFd, this`now, this`listener, this`running, this`serving, this`terminated
      ensures Valid() && Onward(old(now), now) && running && (terminated <==> old(terminated) || old(serving))
      ensures now.gear.phases == old(now.gear.phases)
    {
      ghost var next := Listened(now);
      ListenedGood(now);
      listener := Some(nextFd);
      nextFd := nextFd + 1;
      running, serving, terminated := true, true, terminated || serving;
      now := next;
    }

    /** The accept loop; a connection accepted while stopping is closed at once. */
    method Accept()
      requires Valid()
      modifies this`nextFd, this`now, this`connections
      ensures Valid() && Onward(old(now), now)
      ensures connections == if running then old(connections)[old(nextFd) := Waiting] else old(connections)
    {
      if running {
        Admit();
      } else {
        TurnAway(Client);
      }
    }

    method Admit()
      requires Valid() && running
      modifies this`nextFd, this`now, this`connections
      ensures Valid() && Onward(old(now), now) && connections == old(connections)[old(nextFd) := Waiting]
    {
      ghost var next := Admitted(now);
      AdmittedGood(now);
      connections := connections[nextFd := Waiting];
      nextFd := nextFd + 1;
      now := next;
    }

    /** A descriptor that is closed again at once. */
    method TurnAway(ghost owner: Owner)
      requires Valid()
      modifies this`nextFd, this`now
      ensures Valid() && Onward(old(now), now) && now.gear == old(now.gear)
    {
      ghost var next := TurnedAway(now, owner);
      TurnedAwayGood(now, owner);
      nextFd := nextFd + 1;
      now := next;
    }

    /** A connection whose peer is gone, or whose response could not be sent, ends. */
    method HangUp(c: nat)
      requires Valid() && c in connections && !Working(connections[c])
      modifies this`now, this`connections
      ensures Valid() && Onward(old(now), now) && connections == old(connections) - {c}
    {
      ghost var next := HungUp(now, c);
      HungUpGood(now, c);
      connections := connections - {c};
      now := next;
    }

    /** A stop of a running agent begins: connections that are being served go on until they
        see it. A stop that finds the agent not running does nothing. */
    method BeginStop()
      requires Valid()
      modifies this`running, this`stops, this`now
      ensures Valid() && Onward(old(now), now) && !running
      ensures now.gear.phases == if old(running) then old(now.gear.phases) + [StopBegan] else old(now.gear.phases)
      ensures stops == if old(running) then old(stops) + 1 else old(stops)
    {
      if running {
        ghost var next := StopBegun(now);
        StopBegunGood(now);
        running, stops := false, stops + 1;
        now := next;
      }
    }

    /** The stop waits for the serving thread, which sees that the agent is not running. */
    method JoinServer()
      requires Valid() && stops > 0 && !running
      modifies this`serving, this`now
      ensures Valid() && Onward(old(now), now) && !serving && now.gear.phases == old(now.gear.phases)
    {
      ghost var next := ServerJoined(now);
      ServerJoinedGood(now);
      serving := false;
      now := next;
    }

    // -------------------------------------------------------------------------
    // Requests

    /** Takes a request and answers it at once. */
    method Respond(c: nat, request: Frame, response: Frame, peerTakes: bool)
      requires Valid() && c in connections && connections[c] == Waiting && Answers(request, response)
      modifies this`connections, this`now, this`taken
      ensures Valid() && Onward(old(now), now) && connections == old(connections)[c := Next(response, peerTakes)]
      ensures now.book == Answered(old(now.book), c, request, Outcome(response, peerTakes))
    {
      var state := Next(response, peerTakes);
      ghost var next := Responded(now, c, request, Outcome(response, peerTakes), state);
      RespondedGood(now, c, request, Outcome(response, peerTakes), state);
      connections := connections[c := state];
      taken := taken + 1;
      now := next;
    }

    /** Takes a request that needs a descriptor of its own. */
    method TakeWork(c: nat, state: Connection)
      requires Valid() && c in connections && connections[c] == Waiting
      requires Working(state) && state.serial == taken && PendingFd(state) == Some(nextFd) && KindFits(state)
      modifies this`connections, this`nextFd, this`now, this`taken
      ensures Valid() && Onward(old(now), now) && connections == old(connections)[c := state]
      ensures now.book == old(now.book).(received := old(now.book).received + [Received(c, state.request)])
    {
      ghost var next := Begun(now, c, state);
      BegunGood(now, c, state);
      nextFd := nextFd + 1;
      connections := connections[c := state];
      taken := taken + 1;
      now := next;
    }

    method HandleOpen(c: nat, request: Frame, store: Store, peerTakes: bool)
      requires Valid() && c in connections && connections[c] == Waiting && request.kind == OPEN_REQ
      modifies this`connections, this`nextFd, this`now, this`taken
      ensures Valid() && Onward(old(now), now) && connections.Keys == old(connections).Keys
      ensures Taken(OpenReply(request, store), peerTakes, old(now.book), now.book, c, request, connections[c])
      ensures Working(connections[c]) ==> connections[c] == WorkOf(files, request, store, old(taken), old(nextFd))
    {
      if !OneText(request.body) {
        Respond(c, request, StatusFrame(request, Protocol, Ascii("malformed OPEN_REQ")), peerTakes);
        return;
      }
      var found := store.open(PathOf(request.body));
      if found.OpenFails? {
        Respond(c, request, StatusFrame(request, Remote, found.error), peerTakes);
      } else {
        TakeWork(c, Inserting(taken, request, nextFd, found.size));
      }
    }

    method HandleRead(c: nat, request: Frame, store: Store, peerTakes: bool)
      requires Valid() && c in connections && connections[c] == Waiting && request.kind == READ_REQ
      modifies this`connections, this`nextFd, this`now, this`taken
      ensures Valid() && Onward(old(now), now) && connections.Keys == old(connections).Keys
      ensures Taken(ReadReply(files, request, store), peerTakes, old(now.book), now.book, c, request, connections[c])
      ensures Working(connections[c]) ==> connections[c] == WorkOf(files, request, store, old(taken), old(nextFd))
    {
      var reply := ReadReply(files, request, store);
      if reply.Some? {
        Respond(c, request, reply.value, peerTakes);
      } else {
        var words := Words(request.body, 3).value;
        TakeWork(c, Reading(taken, request, nextFd, files[words[0]], words[1], words[2]));
      }
    }

    method CloseFile(id: nat)
      requires Valid() && id in files
      modifies this`files, this`now
      ensures Valid() && Onward(old(now), now) && now.book == old(now.book) && now.gear == old(now.gear)
      ensures files == old(files) - {id}
      ensures now.table.log == old(now.table.log) + [Release(old(files)[id])]
    {
      ghost var next := FileClosed(now, id);
      FileClosedGood(now, id);
      files := files - {id};
      now := next;
    }

    method HandleClose(c: nat, request: Frame, peerTakes: bool)
      requires Valid() && c in connections && connections[c] == Waiting && request.kind == CLOSE_REQ
      modifies this`connections, this`now, this`taken, this`files
      ensures Valid() && Onward(old(now), now) && connections.Keys == old(connections).Keys
      ensures files == FilesAfter(old(files), request)
      ensures Taken(Some(CloseReply(request)), peerTakes, old(now.book), now.book, c, request, connections[c])
    {
      CloseNamed(Words(request.body, 1));
      Respond(c, request, CloseReply(request), peerTakes);
    }

    method CloseNamed(words: Option<seq<nat>>)
      requires Valid() && (words.Some? ==> |words.value| == 1)
      modifies this`files, this`now
      ensures Valid() && Onward(old(now), now) && now.book == old(now.book)
      ensures files == if words.Some? then old(files) - {words.value[0]} else old(files)
    {
      if words.Some? && words.value[0] in files {
        CloseFile(words.value[0]);
      }
    }

    /** A request arrives on a waiting connection. It is answered at once, or leaves the
        connection with a descriptor of its own and the rest of the work to do, as its type
        and fields ask for. */
    method HandleRequest(c: nat, request: Frame, store: Store, peerTakes: bool)
      requires Valid() && c in connections && connections[c] == Waiting
      modifies this`connections, this`nextFd, this`now, this`taken, this`files
      ensures Valid() && Onward(old(now), now) && connections.Keys == old(connections).Keys
      ensures now.book.received == old(now.book).received + [Received(c, request)] && taken == old(taken) + 1
      ensures Understood(old(files), request, store, old(taken), old(nextFd), AnswerTo(now.book, old(taken)),
                         connections[c], files)
      ensures old(taken) in now.book.answered <==> !Working(connections[c])
      ensures old(taken) in now.book.answered ==>
                var x := now.book.answered[old(taken)];
                x.sent == (peerTakes && |x.response.body| <= MAX_BODY) && (x.sent <==> connections[c] == Waiting)
    {
      ghost var before, known, fd := now.book, files, nextFd;
      NotYetAnswered(now);
      Dispatch(c, request, store, peerTakes);
      TakenAnswers(Immediate(known, request, store), peerTakes, before, now.book, c, request, connections[c]);
      RequestMeans(known, request, store, |before.received|, fd, AnswerTo(now.book, |before.received|), connections[c]);
    }

    method Dispatch(c: nat, request: Frame, store: Store, peerTakes: bool)
      requires Valid() && c in connections && connections[c] == Waiting
      modifies this`connections, this`nextFd, this`now, this`taken, this`files
      ensures Valid() && Onward(old(now), now) && connections.Keys == old(connections).Keys
      ensures files == FilesAfter(old(files), request)
      ensures Taken(Immediate(old(files), request, store), peerTakes, old(now.book), now.book, c, request,
                    connections[c])
      ensures Working(connections[c]) ==> connections[c] == WorkOf(old(files), request, store, old(taken), old(nextFd))
    {
      if request.kind == OPEN_REQ {
        HandleOpen(c, request, store, peerTakes);
      } else if request.kind == READ_REQ {
        HandleRead(c, request, store, peerTakes);
      } else if request.kind == CLOSE_REQ {
        HandleClose(c, request, peerTakes);
      } else {
        var text := if request.kind == HELLO then "mock,hccl-hcomm-planned" else "unknown frame type";
        Respond(c, request, StatusFrame(request, if request.kind == HELLO then StatusOk else Protocol, Ascii(text)),
                peerTakes);
      }
    }

    /** The opened file enters the table under a number that was never used before, and the
        response carries that number. */
    method FinishOpen(c: nat, peerTakes: bool)
      requires Valid() && c in connections && connections[c].Inserting?
      modifies this`connections, this`now, this`files, this`nextFileId
      ensures Valid() && Onward(old(now), now)
      ensures now.table.issued == old(now.table.issued) + [old(nextFileId)] && old(nextFileId) !in old(now.table.issued)
      ensures files == old(files)[old(nextFileId) := old(connections)[c].fd]
      ensures c in connections && !Working(connections[c]) && connections.Keys == old(connections).Keys
      ensures var work := old(connections)[c];
              && now.book.answered.Keys == old(now.book).answered.Keys + {work.serial}
              && Says(AnswerTo(now.book, work.serial), 4, work.request.requestId,
                      [F32(0), F64(old(nextFileId)), F64(work.size), Text([])])
    {
      var work := connections[c];
      WorkFits(now, c);
      var response := OpenedFrame(work.request, nextFileId, work.size);
      EnterFile(c, Next(response, peerTakes), Outcome(response, peerTakes));
    }

    /** Enters the connection's file and books the given response. */
    method EnterFile(c: nat, state: Connection, ghost x: Exchange)
      requires Valid() && c in connections && connections[c].Inserting? && Answers(connections[c].request, x.response)
      requires !Working(state)
      modifies this`connections, this`now, this`files, this`nextFileId
      ensures Valid() && Onward(old(now), now)
      ensures now.table.issued == old(now.table.issued) + [old(nextFileId)] && old(nextFileId) !in old(now.table.issued)
      ensures files == old(files)[old(nextFileId) := old(connections)[c].fd]
      ensures connections == old(connections)[c := state]
      ensures now.book == old(now.book).(answered := old(now.book).answered[old(connections)[c].serial := x])
    {
      ghost var next := FileEntered(now, c, state, x);
      FileEnteredGood(now, c, state, x);
      files := files[nextFileId := connections[c].fd];
      connections := connections[c := state];
      nextFileId := nextFileId + 1;
      now := next;
    }

    /** The read is done: its descriptor is closed whatever came of it, and the response carries
        what the store gave for the file, the offset and the length of the request. A
        successful response always fits. */
    method FinishRead(c: nat, store: Store, peerTakes: bool)
      requires Valid() && c in connections && connections[c].Reading?
      requires var work := connections[c];
               var outcome := store.read(work.source, work.offset, work.length);
               outcome.Payload? ==> |outcome.bytes| <= work.length
      modifies this`connections, this`now
      ensures Valid() && Onward(old(now), now)
      ensures now.table.log == old(now.table.log) + [Release(old(connections)[c].fd)]
      ensures c in connections && !Working(connections[c]) && connections.Keys == old(connections).Keys
      ensures var work := old(connections)[c];
              && now.book.answered.Keys == old(now.book).answered.Keys + {work.serial}
              && ReadAnswered(AnswerTo(now.book, work.serial), work.request.requestId,
                              store.read(work.source, work.offset, work.length))
              && (store.read(work.source, work.offset, work.length).Payload? ==>
                    now.book.answered[work.serial].sent == peerTakes)
    {
      var work := connections[c];
      WorkFits(now, c);
      var outcome := store.read(work.source, work.offset, work.length);
      if outcome.Payload? {
        ReadFits(work.request, outcome.bytes);
      } else {
        StatusFields(work.request, Remote, outcome.error);
      }
      GiveBack(c, ReadDone(work.request, outcome), peerTakes);
    }

    /** Closes the connection's descriptor and makes the given response. */
    method GiveBack(c: nat, response: Frame, peerTakes: bool)
      requires Valid() && c in connections && connections[c].Reading? && Answers(connections[c].request, response)
      modifies this`connections, this`now
      ensures Valid() && Onward(old(now), now)
      ensures now.table.log == old(now.table.log) + [Release(old(connections)[c].fd)]
      ensures connections == old(connections)[c := Next(response, peerTakes)]
      ensures var serial, x := old(connections)[c].serial, Outcome(response, peerTakes);
              now.book == old(now.book).(answered := old(now.book).answered[serial := x])
    {
      var state := Next(response, peerTakes);
      ghost var next := GivenBack(now, c, state, Outcome(response, peerTakes));
      GivenBackGood(now, c, state, Outcome(response, peerTakes));
      connections := connections[c := state];
      now := next;
    }

    // -------------------------------------------------------------------------
    // The end of stopping

    /** Once the serving thread and every connection thread have been joined, the listener is
        closed. If the agent was started again meanwhile, or another stop is under way, there
        may be threads that this stop does not wait for. */
    method CloseListener()
      requires Valid() && stops > 0 && (stops == 1 && !running ==> connections == map[] && !serving)
      modifies this`listener, this`now, this`stops, this`sweeps
      ensures Valid() && Onward(old(now), now) && listener == None
      ensures stops == old(stops) - 1 && sweeps == old(sweeps) + 1
      ensures now.gear.phases == old(now.gear.phases) + [ListenerClosed]
    {
      ghost var next := ListenerGone(now);
      ListenerGoneGood(now);
      listener := None;
      stops, sweeps := stops - 1, sweeps + 1;
      now := next;
    }

    /** Then every file still in the table is closed, and the stop is over. */
    method FinishStop()
      requires Valid() && sweeps > 0
      modifies this`now, this`files, this`sweeps
      ensures Valid() && Onward(old(now), now) && files == map[] && sweeps == old(sweeps) - 1
      ensures now.gear.phases == old(now.gear.phases)
    {
      while files != map[]
        invariant Valid() && Onward(old(now), now) && sweeps == old(sweeps) && now.gear == old(now.gear)
        decreases files.Keys
      {
        var id :| id in files;
        CloseFile(id);
      }
      ghost var next := StopOver(now);
      StopOverGood(now);
      sweeps := sweeps - 1;
      now := next;
    }
  }

  // ---------------------------------------------------------------------------
  // Whole lives

  /** One step of some thread. */
  datatype Action =
    | DoStart(result: StartResult)
    | DoAccept
    | DoRequest(connection: nat, request: Frame, store: Store, peerTakes: bool)
    | DoFinish(connection: nat, store: Store, peerTakes: bool)
    | DoHangUp(connection: nat)
    | DoBeginStop
    | DoJoinServer
    | DoCloseListener
    | DoFinishStop

  method PerformRequest(agent: StorageAgent, c: nat, request: Frame, store: Store, peerTakes: bool)
    requires agent.Valid()
    modifies agent
    ensures agent.Valid() && Onward(old(agent.now), agent.now)
  {
    if c in agent.connections && agent.connections[c] == Waiting {
      agent.HandleRequest(c, request, store, peerTakes);
    }
  }

  /** A read never gives more than was asked for. */
  function Bounded(outcome: ReadOutcome, length: nat): (r: ReadOutcome)
    ensures r.Payload? ==> |r.bytes| <= length
  {
    if outcome.Payload? && |outcome.bytes| > length then Payload(outcome.bytes[..length]) else outcome
  }

  /** The thread of a connection finishes the work it has begun, if any. */
  method PerformFinish(agent: StorageAgent, c: nat, store: Store, peerTakes: bool)
    requires agent.Valid()
    modifies agent
    ensures agent.Valid() && Onward(old(agent.now), agent.now)
    ensures agent.running == old(agent.running) && agent.serving == old(agent.serving)
    ensures agent.terminated == old(agent.terminated)
    ensures agent.connections.Keys == old(agent.connections).Keys
    ensures c in agent.connections ==> !Working(agent.connections[c])
  {
    if c in agent.connections && agent.connections[c].Inserting? {
      agent.FinishOpen(c, peerTakes);
    } else if c in agent.connections && agent.connections[c].Reading? {
      var read := (fd: nat, offset: nat, length: nat) => Bounded(store.read(fd, offset, length), length);
      ghost var work := agent.connections[c];
      assert read(work.source, work.offset, work.length) ==
             Bounded(store.read(work.source, work.offset, work.length), work.length);
      agent.FinishRead(c, store.(read := read), peerTakes);
    }
  }

  /** A step of a thread, if that thread is ready for it. A stop that is alone waits for every
      connection; once a start has come in between, it is allowed not to. */
  method Perform(agent: StorageAgent, a: Action)
    requires agent.Valid() && !agent.terminated
    modifies agent
    ensures agent.Valid() && Onward(old(agent.now), agent.now)
  {
    match a {
      case DoStart(result) =>
        agent.Start(result);
      case DoAccept =>
        if agent.serving && agent.listener.Some? {
          agent.Accept();
        }
      case DoRequest(c, request, store, peerTakes) =>
        PerformRequest(agent, c, request, store, peerTakes);
      case DoFinish(c, store, peerTakes) =>
        PerformFinish(agent, c, store, peerTakes);
      case DoHangUp(c) =>
        if c in agent.connections && !Working(agent.connections[c]) {
          agent.HangUp(c);
        }
      case _ =>
        PerformStop(agent, a);
    }
  }

  method PerformStop(agent: StorageAgent, a: Action)
    requires agent.Valid()
    modifies agent
    ensures agent.Valid() && Onward(old(agent.now), agent.now)
  {
    if a.DoBeginStop? {
      agent.BeginStop();
    } else if a.DoJoinServer? && agent.stops > 0 && !agent.running {
      agent.JoinServer();
    } else if a.DoCloseListener? && agent.stops > 0 &&
              (agent.stops != 1 || agent.running || (agent.connections == map[] && !agent.serving)) {
      agent.CloseListener();
    } else if a.DoFinishStop? && agent.sweeps > 0 {
      agent.FinishStop();
    }
  }

  /** Stopping shuts every connection down; each thread finishes what it has begun and ends. */
  method EndConnections(agent: StorageAgent)
    requires agent.Valid() && !agent.running && !agent.serving && !agent.terminated
    modifies agent
    ensures agent.Valid() && !agent.running && !agent.serving && !agent.terminated && agent.connections == map[]
  {
    while agent.connections != map[]
      invariant agent.Valid() && !agent.running && !agent.serving && !agent.terminated
      decreases agent.connections.Keys
    {
      var c :| c in agent.connections;
      PerformFinish(agent, c, Store(path => OpenFails([]), fd => Dups, (fd, offset, length) => ReadFails([])), false);
      agent.HangUp(c);
    }
  }

  /** A stop, if the agent is running, and the end of every stop that is under way. */
  method StopForGood(agent: StorageAgent)
    requires agent.Valid() && !agent.terminated
    modifies agent
    ensures agent.Valid() && !agent.terminated && !agent.running && agent.stops == agent.sweeps == 0
  {
    agent.BeginStop();
    if agent.stops > 0 {
      agent.JoinServer();
    }
    ServedOnlyByStops(agent.now);
    EndConnections(agent);
    while agent.stops > 0
      invariant agent.Valid() && !agent.terminated && !agent.running && !agent.serving && agent.connections == map[]
      decreases agent.stops
    {
      agent.CloseListener();
    }
    while agent.sweeps > 0
      invariant agent.Valid() && !agent.terminated && !agent.running && agent.stops == 0
      decreases agent.sweeps
    {
      agent.FinishStop();
    }
  }

  /** Any interleaving of connections, accepts, starts and stops, with any failures, and then a
      stop. Every descriptor that was opened, accepted or duplicated has been closed exactly
      once if and only if no start was made between the moment a stop lowered the running flag
      and the moment it closed the listener. Every request that was taken has exactly one
      response, of its type and with its id, unless such a start has ended the program; and no
      file number was given out twice. */
  method LifeOf(actions: seq<Action>) returns (agent: StorageAgent)
    ensures fresh(agent) && agent.Valid()
    ensures Replay(agent.now.table.log, NoNeeds) == Some({}) <==> !Overlapped(agent.now.gear.phases)
    ensures agent.terminated ==> Overlapped(agent.now.gear.phases)
    ensures !agent.terminated ==>
              AllAnswered(agent.now.book) && Replay(agent.now.table.log, NoNeeds) == Some(agent.now.table.lost)
    ensures Distinct(agent.now.table.issued)
  {
    agent := new StorageAgent();
    for i := 0 to |actions|
      invariant agent.Valid() && fresh(agent)
    {
      if !agent.terminated {
        Perform(agent, actions[i]);
      }
    }
    if !agent.terminated {
      StopForGood(agent);
      StoppedForGood(agent.now);
    }
    LostExactly(agent.now);
    IdsDistinct(agent.now);
  }

  /** The overlap does happen: a start that comes after the serving thread was joined and
      before the listener was closed. The first listener stays open for good. */
  method LostListener() returns (agent: StorageAgent)
    ensures fresh(agent) && agent.Valid() && !agent.terminated && !agent.running && agent.stops == agent.sweeps == 0
    ensures agent.now.gear.phases == [Started, StopBegan, Started, StopBegan, ListenerClosed, ListenerClosed]
    ensures Replay(agent.now.table.log, NoNeeds) == Some(agent.now.table.lost) && agent.now.table.lost != {}
  {
    agent := new StorageAgent();
    StartAndStop(agent);
    StartAndStop(agent);
    EndBoth(agent);
    StoppedForGood(agent.now);
    LostExactly(agent.now);
    LostOnTheWay(agent.now.gear.phases);
  }

  /** A start, and a stop up to the point where the serving thread has been joined. */
  method StartAndStop(agent: StorageAgent)
    requires agent.Valid() && !agent.running && !agent.serving && !agent.terminated && agent.connections == map[]
    modifies agent
    ensures agent.Valid() && !agent.running && !agent.serving && !agent.terminated && agent.connections == map[]
    ensures agent.now.gear.phases == old(agent.now.gear.phases) + [Started, StopBegan]
    ensures agent.stops == old(agent.stops) + 1 && agent.sweeps == old(agent.sweeps)
  {
    agent.Start(Listens);
    agent.BeginStop();
    agent.JoinServer();
  }

  /** The ends of two stops, one after the other. */
  method EndBoth(agent: StorageAgent)
    requires agent.Valid() && !agent.running && !agent.serving && agent.connections == map[] && agent.stops == 2
    requires agent.sweeps == 0
    modifies agent
    ensures agent.Valid() && !agent.running && agent.terminated == old(agent.terminated)
    ensures agent.stops == agent.sweeps == 0
    ensures agent.now.gear.phases == old(agent.now.gear.phases) + [ListenerClosed, ListenerClosed]
  {
    agent.CloseListener();
    agent.CloseListener();
    agent.FinishStop();
    agent.FinishStop();
  }

  lemma LostOnTheWay(phases: seq<Phase>)
    requires phases == [Started, StopBegan, Started, StopBegan, ListenerClosed, ListenerClosed]
    ensures Overlapped(phases)
  {
    assert phases[..2] == [Started] + [StopBegan];
    PhaseAdded([Started], StopBegan);
    PhaseAdded([], Started);
    assert phases[2] == Started && UnderWay(phases[..2]) > 0;
  }
}
