/** What the storage agent's fields hold at one moment, and every atomic step of its threads as
    a function on that. All of it is kept in order by every step: descriptors have owners,
    requests have responses, and starts and stops are in step. */
module AgentState {
  import opened Common
  import opened Framing
  import opened ResourceLog

  // Frame types.
  const HELLO: nat := 1
  const HELLO_ACK: nat := 2
  const OPEN_REQ: nat := 3
  const OPEN_RESP: nat := 4
  const READ_REQ: nat := 5
  const READ_RESP: nat := 6
  const CLOSE_REQ: nat := 7
  const CLOSE_RESP: nat := 8
  const ERROR: nat := 9

  /** Bytes of a read response around its payload: status, size, checksum, empty message. */
  const READ_FIXED: nat := 20
  const MAX_READ: nat := MAX_BODY - READ_FIXED

  /** The type that answers a request. */
  function ResponseKind(kind: nat): nat {
    if kind == HELLO then HELLO_ACK
    else if kind == OPEN_REQ then OPEN_RESP
    else if kind == READ_REQ then READ_RESP
    else if kind == CLOSE_REQ then CLOSE_RESP
    else ERROR
  }

  predicate Answers(request: Frame, response: Frame) {
    response.kind == ResponseKind(request.kind) && response.requestId == request.requestId
  }

  /** Where a connection's thread stands: waiting for the next request; with a file it has opened
      and not yet entered; with a duplicate of the descriptor `source` and a read to do; or
      unable to send and about to end. Unfinished work knows the number of its request. */
  datatype Connection =
    | Waiting
    | Inserting(serial: nat, request: Frame, fd: nat, size: nat)
    | Reading(serial: nat, request: Frame, fd: nat, source: nat, offset: nat, length: nat)
    | Broken

  predicate Working(c: Connection) { c.Inserting? || c.Reading? }

  function PendingFd(c: Connection): Option<nat> {
    match c
    case Inserting(_, _, fd, _) => Some(fd)
    case Reading(_, _, fd, _, _, _) => Some(fd)
    case _ => None
  }

  /** Unfinished work belongs to a request of its kind. */
  predicate KindFits(c: Connection) {
    && (c.Inserting? ==> c.request.kind == OPEN_REQ)
    && (c.Reading? ==> c.request.kind == READ_REQ && c.length <= MAX_READ)
  }

  predicate KindsFit(connections: map<nat, Connection>) { forall c :: c in connections ==> KindFits(connections[c]) }

  // ---------------------------------------------------------------------------
  // Who owns which descriptor

  /** Who will close a descriptor; nobody, if it is lost. */
  datatype Owner = Listener | Client | InFile(id: nat) | Pending(connection: nat) | Lost

  function NoNeeds(fd: nat): set<nat> { {} }

  /** Every descriptor opened and closed so far, who owns the open ones, everything that names
      a descriptor, and the file numbers given out. */
  datatype Table = Table(
    log: seq<Event<nat>>, owners: map<nat, Owner>, nextFd: nat,
    listener: Option<nat>, connections: map<nat, Connection>, files: map<nat, nat>,
    issued: seq<nat>, nextFileId: nat, lost: set<nat>)

  function Opened(t: Table, owner: Owner): Table {
    t.(log := t.log + [Acquire(t.nextFd)], owners := t.owners[t.nextFd := owner], nextFd := t.nextFd + 1)
  }

  function Closed(t: Table, fd: nat): Table { t.(log := t.log + [Release(fd)], owners := t.owners - {fd}) }

  /** The descriptor log is in order and ends with the owned descriptors. */
  ghost predicate Ordered(t: Table) {
    Replay(t.log, NoNeeds) == Some(t.owners.Keys) && forall fd :: fd in t.owners ==> fd < t.nextFd
  }

  lemma OrderedOpens(t: Table, owner: Owner)
    requires Ordered(t)
    ensures t.nextFd !in t.owners && Ordered(Opened(t, owner))
  {
    ReplayAppend(t.log, Acquire(t.nextFd), NoNeeds);
    assert t.owners[t.nextFd := owner].Keys == t.owners.Keys + {t.nextFd};
  }

  lemma OrderedCloses(t: Table, fd: nat)
    requires Ordered(t) && fd in t.owners
    ensures Ordered(Closed(t, fd))
  {
    ReplayAppend(t.log, Release(fd), NoNeeds);
    assert (t.owners - {fd}).Keys == t.owners.Keys - {fd};
  }

  lemma OrderedMoves(t: Table, fd: nat, owner: Owner)
    requires Ordered(t) && fd in t.owners
    ensures Ordered(t.(owners := t.owners[fd := owner]))
  {
    assert t.owners[fd := owner].Keys == t.owners.Keys;
  }

  /** Only log, owners and the next descriptor matter for the order. */
  lemma OrderedAlike(t: Table, t': Table)
    requires Ordered(t) && t'.log == t.log && t'.owners == t.owners && t'.nextFd == t.nextFd
    ensures Ordered(t')
  {
  }

  /** Every open descriptor has the owner recorded for it, and everything that names a
      descriptor owns it. Lost ones are open and named by nobody. */
  ghost predicate Owned(
    owners: map<nat, Owner>, listener: Option<nat>, connections: map<nat, Connection>, files: map<nat, nat>,
    lost: set<nat>)
  {
    && (forall fd :: fd in owners ==>
          match owners[fd]
          case Listener => listener == Some(fd)
          case Client => fd in connections
          case InFile(id) => id in files && files[id] == fd
          case Pending(c) => c in connections && PendingFd(connections[c]) == Some(fd)
          case Lost => fd in lost)
    && (listener.Some? ==> listener.value in owners && owners[listener.value] == Listener)
    && (forall c :: c in connections ==> c in owners && owners[c] == Client)
    && (forall c :: c in connections && PendingFd(connections[c]).Some? ==>
          PendingFd(connections[c]).value in owners && owners[PendingFd(connections[c]).value] == Pending(c))
    && (forall id :: id in files ==> files[id] in owners && owners[files[id]] == InFile(id))
    && (forall fd :: fd in lost ==> fd in owners && owners[fd] == Lost)
  }

  ghost predicate TableOwned(t: Table) { Owned(t.owners, t.listener, t.connections, t.files, t.lost) }

  lemma OwnListener(t: Table)
    requires TableOwned(t) && t.nextFd !in t.owners && t.listener == None
    ensures TableOwned(Opened(t, Listener).(listener := Some(t.nextFd)))
  {
  }

  /** The listener is forgotten without being closed. */
  lemma LoseListener(t: Table)
    requires TableOwned(t) && t.listener.Some?
    ensures var fd := t.listener.value;
            TableOwned(t.(owners := t.owners[fd := Lost], listener := None, lost := t.lost + {fd}))
  {
  }

  lemma DropListener(t: Table)
    requires TableOwned(t) && t.listener.Some?
    ensures TableOwned(Closed(t, t.listener.value).(listener := None))
  {
  }

  lemma OwnNothing(t: Table, owner: Owner)
    requires TableOwned(t) && t.nextFd !in t.owners
    ensures TableOwned(Closed(Opened(t, owner), t.nextFd))
  {
    assert Closed(Opened(t, owner), t.nextFd).owners == t.owners;
  }

  lemma OwnClient(t: Table)
    requires TableOwned(t) && t.nextFd !in t.owners
    ensures t.nextFd !in t.connections
    ensures TableOwned(Opened(t, Client).(connections := t.connections[t.nextFd := Waiting]))
  {
  }

  lemma DropClient(t: Table, c: nat)
    requires TableOwned(t) && c in t.connections && PendingFd(t.connections[c]) == None
    ensures TableOwned(Closed(t, c).(connections := t.connections - {c}))
  {
  }

  lemma MoveClient(t: Table, c: nat, state: Connection)
    requires TableOwned(t) && c in t.connections && PendingFd(t.connections[c]) == None && PendingFd(state) == None
    ensures TableOwned(t.(connections := t.connections[c := state]))
  {
  }

  lemma OwnPending(t: Table, c: nat, state: Connection)
    requires TableOwned(t) && t.nextFd !in t.owners && c in t.connections && PendingFd(t.connections[c]) == None
    requires PendingFd(state) == Some(t.nextFd)
    ensures TableOwned(Opened(t, Pending(c)).(connections := t.connections[c := state]))
  {
  }

  lemma DropPending(t: Table, c: nat, state: Connection)
    requires TableOwned(t) && c in t.connections && PendingFd(t.connections[c]).Some? && PendingFd(state) == None
    ensures TableOwned(Closed(t, PendingFd(t.connections[c]).value).(connections := t.connections[c := state]))
  {
  }

  /** The descriptor of a connection goes into the file table, under a new number. */
  function Entered(t: Table, c: nat, fd: nat, state: Connection): Table {
    t.(owners := t.owners[fd := InFile(t.nextFileId)], connections := t.connections[c := state],
       files := t.files[t.nextFileId := fd], issued := t.issued + [t.nextFileId], nextFileId := t.nextFileId + 1)
  }

  lemma FilePending(t: Table, c: nat, state: Connection)
    requires TableOwned(t) && c in t.connections && PendingFd(t.connections[c]).Some? && PendingFd(state) == None
    requires t.nextFileId !in t.files
    ensures TableOwned(Entered(t, c, PendingFd(t.connections[c]).value, state))
  {
  }

  lemma DropFile(t: Table, id: nat)
    requires TableOwned(t) && id in t.files
    ensures TableOwned(Closed(t, t.files[id]).(files := t.files - {id}))
  {
  }

  // ---------------------------------------------------------------------------
  // File numbers

  /** File numbers are given out in order, from one. */
  predicate Consecutive(issued: seq<nat>) { forall j :: 0 <= j < |issued| ==> issued[j] == j + 1 }

  predicate Numbered(t: Table) {
    Consecutive(t.issued) && t.nextFileId == |t.issued| + 1 && forall id :: id in t.files ==> id < t.nextFileId
  }

  predicate Distinct(ids: seq<nat>) { forall i, j :: 0 <= i < j < |ids| ==> ids[i] != ids[j] }

  // ---------------------------------------------------------------------------
  // Which request has which response

  /** A request as it was taken from a connection; its number is its place in the book. */
  datatype Received = Received(connection: nat, request: Frame)

  /** The response that was made for a request, and whether the peer got it. */
  datatype Exchange = Exchange(response: Frame, sent: bool)

  /** Every request taken so far, and the responses made so far, by request number. */
  datatype Book = Book(received: seq<Received>, answered: map<nat, Exchange>)

  /** Every response answers the request of its number; every other request is the unfinished
      work of the connection it came from. */
  ghost predicate Accounted(b: Book, connections: map<nat, Connection>) {
    && (forall k :: k in b.answered ==> k < |b.received| && Answers(b.received[k].request, b.answered[k].response))
    && (forall c :: c in connections && Working(connections[c]) ==>
          && connections[c].serial < |b.received| && connections[c].serial !in b.answered
          && b.received[connections[c].serial] == Received(c, connections[c].request))
    && (forall k :: 0 <= k < |b.received| && k !in b.answered ==>
          && b.received[k].connection in connections && Working(connections[b.received[k].connection])
          && connections[b.received[k].connection].serial == k)
  }

  /** The book after a request that is answered at once. */
  function Answered(b: Book, c: nat, request: Frame, x: Exchange): Book {
    Book(b.received + [Received(c, request)], b.answered[|b.received| := x])
  }

  lemma BookAnswers(b: Book, connections: map<nat, Connection>, c: nat, request: Frame, x: Exchange, state: Connection)
    requires Accounted(b, connections) && c in connections && !Working(connections[c]) && !Working(state)
    requires Answers(request, x.response)
    ensures Accounted(Answered(b, c, request, x), connections[c := state])
  {
  }

  lemma BookBegins(b: Book, connections: map<nat, Connection>, c: nat, state: Connection)
    requires Accounted(b, connections) && c in connections && !Working(connections[c])
    requires Working(state) && state.serial == |b.received|
    ensures Accounted(b.(received := b.received + [Received(c, state.request)]), connections[c := state])
  {
  }

  lemma BookFinishes(b: Book, connections: map<nat, Connection>, c: nat, x: Exchange, state: Connection)
    requires Accounted(b, connections) && c in connections && Working(connections[c]) && !Working(state)
    requires Answers(connections[c].request, x.response)
    ensures Accounted(b.(answered := b.answered[connections[c].serial := x]), connections[c := state])
  {
  }

  lemma BookConnects(b: Book, connections: map<nat, Connection>, c: nat)
    requires Accounted(b, connections) && c !in connections
    ensures Accounted(b, connections[c := Waiting])
  {
    var connections' := connections[c := Waiting];
    forall k | 0 <= k < |b.received| && k !in b.answered
      ensures b.received[k].connection in connections' && Working(connections'[b.received[k].connection])
      ensures connections'[b.received[k].connection].serial == k
    {
      assert b.received[k].connection in connections;
    }
  }

  lemma BookHangsUp(b: Book, connections: map<nat, Connection>, c: nat)
    requires Accounted(b, connections) && c in connections && !Working(connections[c])
    ensures Accounted(b, connections - {c})
  {
    var connections' := connections - {c};
    forall k | 0 <= k < |b.received| && k !in b.answered
      ensures b.received[k].connection in connections' && Working(connections'[b.received[k].connection])
      ensures connections'[b.received[k].connection].serial == k
    {
      assert b.received[k].connection in connections && b.received[k].connection != c;
    }
  }

  /** Nothing in the book is ever changed, only added to. */
  predicate Grows(b: Book, b': Book) {
    b.received <= b'.received && forall k :: k in b.answered ==> k in b'.answered && b'.answered[k] == b.answered[k]
  }

  /** Every request has exactly one response, of its type and with its id. */
  ghost predicate AllAnswered(b: Book) {
    && (forall k :: k in b.answered <==> 0 <= k < |b.received|)
    && (forall k :: 0 <= k < |b.received| ==> Answers(b.received[k].request, b.answered[k].response))
  }

  // ---------------------------------------------------------------------------
  // Starting and stopping

  /** Starts that got past the running flag, stops that lowered it, and stops that have got as
      far as closing the listener. */
  datatype Phase = Started | StopBegan | ListenerClosed

  /** How many stops have begun and not closed the listener yet. */
  function UnderWay(phases: seq<Phase>): int {
    if phases == [] then 0
    else
      UnderWay(phases[..|phases| - 1]) +
      match phases[|phases| - 1]
      case Started => 0
      case StopBegan => 1
      case ListenerClosed => -1
  }

  /** Some start was made while a stop was under way that had yet to close the listener. */
  predicate Overlapped(phases: seq<Phase>) {
    exists i :: 0 <= i < |phases| && phases[i] == Started && UnderWay(phases[..i]) > 0
  }

  lemma PhaseAdded(phases: seq<Phase>, p: Phase)
    ensures UnderWay(phases + [p]) ==
            UnderWay(phases) + match p case Started => 0 case StopBegan => 1 case ListenerClosed => -1
    ensures Overlapped(phases + [p]) <==> Overlapped(phases) || (p == Started && UnderWay(phases) > 0)
  {
    var next := phases + [p];
    assert next[..|phases|] == phases;
    if Overlapped(phases) {
      var i :| 0 <= i < |phases| && phases[i] == Started && UnderWay(phases[..i]) > 0;
      assert next[i] == Started && next[..i] == phases[..i];
    }
    forall i | 0 <= i < |phases|
      ensures next[..i] == phases[..i]
    {
    }
  }

  /** Running: the flag. Serving: the serving thread has not been joined. Terminated: a second
      serving thread was put in the place of one that had not been joined, which ends the
      program. Stops: how many have yet to close the listener. Sweeps: how many have done so
      and have yet to close the files. */
  datatype Gear = Gear(phases: seq<Phase>, running: bool, serving: bool, terminated: bool, stops: nat, sweeps: nat)

  /** What they say about each other: a listener is lost exactly if a start overlapped a stop;
      otherwise stops come one at a time, and a listener is there exactly while the agent runs
      or stops. */
  ghost predicate InStep(g: Gear, listening: bool, lost: set<nat>) {
    && g.stops == UnderWay(g.phases) && (lost != {} <==> Overlapped(g.phases))
    && (g.terminated ==> lost != {}) && (g.serving && !g.running ==> g.stops > 0)
    && (!g.running && g.stops == 0 ==> !listening)
    && (lost == {} ==> (g.running ==> g.stops == 0) && g.stops <= 1 && (g.running || g.stops > 0 ==> listening))
  }

  // ---------------------------------------------------------------------------
  // Everything together

  datatype View = View(table: Table, gear: Gear, book: Book)

  /** Descriptors, file numbers and requests are accounted for, starts and stops are in step,
      and nothing is served once the agent has stopped. */
  ghost predicate AllGood(v: View) {
    && Ordered(v.table) && TableOwned(v.table) && Numbered(v.table) && KindsFit(v.table.connections)
    && Accounted(v.book, v.table.connections) && InStep(v.gear, v.table.listener.Some?, v.table.lost)
    && (!v.gear.running && v.gear.stops == 0 ==>
          v.table.connections == map[] && (v.gear.sweeps == 0 ==> v.table.files == map[]))
  }

  /** The same, wrapped so that proofs about the object do not look inside: `Open` unwraps it. */
  ghost predicate Good(v: View) { Wrapped(v, |v.table.log| + 3) }

  ghost predicate Wrapped(v: View, depth: nat) { if depth == 0 then AllGood(v) else Wrapped(v, depth - 1) }

  lemma {:induction false} Unwrap(v: View, depth: nat)
    ensures Wrapped(v, depth) == AllGood(v)
  {
    if depth > 0 {
      Unwrap(v, depth - 1);
    }
  }

  lemma Open(v: View)
    ensures Good(v) == AllGood(v)
  {
    Unwrap(v, |v.table.log| + 3);
  }

  /** The past is only added to. */
  predicate Onward(v: View, v': View) {
    v.table.log <= v'.table.log && v.table.issued <= v'.table.issued && Grows(v.book, v'.book)
  }

  // ---------------------------------------------------------------------------
  // The steps

  const NEW: View :=
    View(Table([], map[], 0, None, map[], map[], [], 1, {}), Gear([], false, false, false, 0, 0), Book([], map[]))

  lemma NewGood()
    ensures Good(NEW)
  {
    var none: map<nat, Owner> := map[];
    assert none.Keys == {};
    Open(NEW);
  }

  /** A start begins by overwriting the listener, whatever it is. */
  function Forgets(v: View): View {
    var t := v.table;
    View(if t.listener.Some? then
           t.(owners := t.owners[t.listener.value := Lost], listener := None, lost := t.lost + {t.listener.value})
         else t,
         v.gear.(phases := v.gear.phases + [Started]), v.book)
  }

  lemma ForgetsGood(v: View)
    requires Good(v) && !v.gear.running
    ensures Good(Forgets(v)) && Onward(v, Forgets(v))
  {
    Open(v);
    Open(Forgets(v));
    PhaseAdded(v.gear.phases, Started);
    if v.table.listener.Some? {
      LoseListener(v.table);
      OrderedMoves(v.table, v.table.listener.value, Lost);
      OrderedAlike(v.table.(owners := v.table.owners[v.table.listener.value := Lost]), Forgets(v).table);
    }
  }

  /** The rest of a start that works. */
  function Listened(v: View): View {
    var g := v.gear;
    v.(table := Opened(v.table, Listener).(listener := Some(v.table.nextFd)),
       gear := g.(running := true, serving := true, terminated := g.terminated || g.serving))
  }

  lemma ListenedGood(v: View)
    requires Good(v) && !v.gear.running && v.table.listener == None
    ensures Good(Listened(v)) && Onward(v, Listened(v))
  {
    Open(v);
    Open(Listened(v));
    OrderedOpens(v.table, Listener);
    OwnListener(v.table);
    OrderedAlike(Opened(v.table, Listener), Listened(v).table);
  }

  /** A descriptor that is closed again at once. */
  function TurnedAway(v: View, owner: Owner): View { v.(table := Closed(Opened(v.table, owner), v.table.nextFd)) }

  lemma TurnedAwayGood(v: View, owner: Owner)
    requires Good(v)
    ensures Good(TurnedAway(v, owner)) && Onward(v, TurnedAway(v, owner))
  {
    Open(v);
    Open(TurnedAway(v, owner));
    OrderedOpens(v.table, owner);
    OrderedCloses(Opened(v.table, owner), v.table.nextFd);
    OwnNothing(v.table, owner);
  }

  function Admitted(v: View): View {
    v.(table := Opened(v.table, Client).(connections := v.table.connections[v.table.nextFd := Waiting]))
  }

  lemma AdmittedGood(v: View)
    requires Good(v) && v.gear.running
    ensures Good(Admitted(v)) && Onward(v, Admitted(v))
  {
    Open(v);
    Open(Admitted(v));
    OrderedOpens(v.table, Client);
    OwnClient(v.table);
    OrderedAlike(Opened(v.table, Client), Admitted(v).table);
    BookConnects(v.book, v.table.connections, v.table.nextFd);
  }

  function HungUp(v: View, c: nat): View { v.(table := Closed(v.table, c).(connections := v.table.connections - {c})) }

  lemma HungUpGood(v: View, c: nat)
    requires Good(v) && c in v.table.connections && !Working(v.table.connections[c])
    ensures Good(HungUp(v, c)) && Onward(v, HungUp(v, c))
  {
    Open(v);
    Open(HungUp(v, c));
    OrderedCloses(v.table, c);
    DropClient(v.table, c);
    OrderedAlike(Closed(v.table, c), HungUp(v, c).table);
    BookHangsUp(v.book, v.table.connections, c);
  }

  function StopBegun(v: View): View {
    var g := v.gear;
    v.(gear := g.(phases := g.phases + [StopBegan], running := false, stops := g.stops + 1))
  }

  lemma StopBegunGood(v: View)
    requires Good(v) && v.gear.running
    ensures Good(StopBegun(v)) && Onward(v, StopBegun(v))
  {
    Open(v);
    Open(StopBegun(v));
    PhaseAdded(v.gear.phases, StopBegan);
  }

  function ServerJoined(v: View): View { v.(gear := v.gear.(serving := false)) }

  lemma ServerJoinedGood(v: View)
    requires Good(v)
    ensures Good(ServerJoined(v)) && Onward(v, ServerJoined(v))
  {
    Open(v);
    Open(ServerJoined(v));
  }

  /** A request is answered at once. */
  function Responded(v: View, c: nat, request: Frame, x: Exchange, state: Connection): View {
    v.(table := v.table.(connections := v.table.connections[c := state]), book := Answered(v.book, c, request, x))
  }

  lemma RespondedGood(v: View, c: nat, request: Frame, x: Exchange, state: Connection)
    requires Good(v) && c in v.table.connections && !Working(v.table.connections[c]) && !Working(state)
    requires Answers(request, x.response)
    ensures Good(Responded(v, c, request, x, state)) && Onward(v, Responded(v, c, request, x, state))
  {
    Open(v);
    Open(Responded(v, c, request, x, state));
    MoveClient(v.table, c, state);
    OrderedAlike(v.table, Responded(v, c, request, x, state).table);
    BookAnswers(v.book, v.table.connections, c, request, x, state);
  }

  /** A request is taken that needs a descriptor of its own. */
  function Begun(v: View, c: nat, state: Connection): View
    requires Working(state)
  {
    v.(table := Opened(v.table, Pending(c)).(connections := v.table.connections[c := state]),
       book := v.book.(received := v.book.received + [Received(c, state.request)]))
  }

  lemma BegunGood(v: View, c: nat, state: Connection)
    requires Good(v) && c in v.table.connections && !Working(v.table.connections[c])
    requires Working(state) && state.serial == |v.book.received| && PendingFd(state) == Some(v.table.nextFd)
    requires KindFits(state)
    ensures Good(Begun(v, c, state)) && Onward(v, Begun(v, c, state))
  {
    Open(v);
    Open(Begun(v, c, state));
    OrderedOpens(v.table, Pending(c));
    OwnPending(v.table, c, state);
    OrderedAlike(Opened(v.table, Pending(c)), Begun(v, c, state).table);
    BookBegins(v.book, v.table.connections, c, state);
  }

  /** The book when a connection's work is done. */
  function Finished(v: View, c: nat, x: Exchange): Book
    requires c in v.table.connections && Working(v.table.connections[c])
  {
    v.book.(answered := v.book.answered[v.table.connections[c].serial := x])
  }

  /** An opened file enters the table. */
  function FileEntered(v: View, c: nat, state: Connection, x: Exchange): View
    requires c in v.table.connections && Working(v.table.connections[c])
  {
    v.(table := Entered(v.table, c, v.table.connections[c].fd, state), book := Finished(v, c, x))
  }

  lemma FileEnteredGood(v: View, c: nat, state: Connection, x: Exchange)
    requires Good(v) && c in v.table.connections && Working(v.table.connections[c]) && !Working(state)
    requires Answers(v.table.connections[c].request, x.response)
    ensures v.table.nextFileId !in v.table.issued && Good(FileEntered(v, c, state, x))
    ensures Onward(v, FileEntered(v, c, state, x))
  {
    Open(v);
    Open(FileEntered(v, c, state, x));
    var t, fd := v.table, v.table.connections[c].fd;
    OrderedMoves(t, fd, InFile(t.nextFileId));
    OrderedAlike(t.(owners := t.owners[fd := InFile(t.nextFileId)]), Entered(t, c, fd, state));
    NumberNext(t, c, fd, state);
    FilePending(t, c, state);
    BookFinishes(v.book, t.connections, c, x, state);
    FinishGrows(v, c, x);
  }

  lemma NumberNext(t: Table, c: nat, fd: nat, state: Connection)
    requires Numbered(t)
    ensures t.nextFileId !in t.issued && t.nextFileId !in t.files && Numbered(Entered(t, c, fd, state))
  {
  }

  lemma FinishGrows(v: View, c: nat, x: Exchange)
    requires c in v.table.connections && Working(v.table.connections[c]) && Accounted(v.book, v.table.connections)
    ensures Grows(v.book, Finished(v, c, x))
  {
  }

  /** A descriptor of a connection's own is closed. */
  function GivenBack(v: View, c: nat, state: Connection, x: Exchange): View
    requires c in v.table.connections && Working(v.table.connections[c])
  {
    v.(table := Closed(v.table, v.table.connections[c].fd).(connections := v.table.connections[c := state]),
       book := Finished(v, c, x))
  }

  lemma GivenBackGood(v: View, c: nat, state: Connection, x: Exchange)
    requires Good(v) && c in v.table.connections && Working(v.table.connections[c]) && !Working(state)
    requires Answers(v.table.connections[c].request, x.response)
    ensures Good(GivenBack(v, c, state, x)) && Onward(v, GivenBack(v, c, state, x))
  {
    Open(v);
    Open(GivenBack(v, c, state, x));
    var fd := v.table.connections[c].fd;
    OrderedCloses(v.table, fd);
    DropPending(v.table, c, state);
    OrderedAlike(Closed(v.table, fd), GivenBack(v, c, state, x).table);
    BookFinishes(v.book, v.table.connections, c, x, state);
    FinishGrows(v, c, x);
  }

  function FileClosed(v: View, id: nat): View
    requires id in v.table.files
  {
    v.(table := Closed(v.table, v.table.files[id]).(files := v.table.files - {id}))
  }

  lemma FileClosedGood(v: View, id: nat)
    requires Good(v) && id in v.table.files
    ensures Good(FileClosed(v, id)) && Onward(v, FileClosed(v, id))
  {
    Open(v);
    Open(FileClosed(v, id));
    OrderedCloses(v.table, v.table.files[id]);
    DropFile(v.table, id);
    OrderedAlike(Closed(v.table, v.table.files[id]), FileClosed(v, id).table);
  }

  /** The listener, if it is still there, is closed. */
  function ListenerGone(v: View): View
    requires v.gear.stops > 0
  {
    var t, g := v.table, v.gear;
    View(if t.listener.Some? then Closed(t, t.listener.value).(listener := None) else t,
         g.(phases := g.phases + [ListenerClosed], stops := g.stops - 1, sweeps := g.sweeps + 1), v.book)
  }

  lemma ListenerGoneGood(v: View)
    requires Good(v) && v.gear.stops > 0
    requires v.gear.stops == 1 && !v.gear.running ==> v.table.connections == map[] && !v.gear.serving
    ensures Good(ListenerGone(v)) && Onward(v, ListenerGone(v))
  {
    Open(v);
    Open(ListenerGone(v));
    PhaseAdded(v.gear.phases, ListenerClosed);
    if v.table.listener.Some? {
      OrderedCloses(v.table, v.table.listener.value);
      DropListener(v.table);
      OrderedAlike(Closed(v.table, v.table.listener.value), ListenerGone(v).table);
    }
  }

  /** The stop is over once it has closed every file. */
  function StopOver(v: View): View
    requires v.gear.sweeps > 0
  {
    v.(gear := v.gear.(sweeps := v.gear.sweeps - 1))
  }

  lemma StopOverGood(v: View)
    requires Good(v) && v.gear.sweeps > 0 && v.table.files == map[]
    ensures Good(StopOver(v)) && Onward(v, StopOver(v))
  {
    Open(v);
    Open(StopOver(v));
  }

  // ---------------------------------------------------------------------------
  // What it means

  lemma WorkFits(v: View, c: nat)
    requires Good(v) && c in v.table.connections
    ensures KindFits(v.table.connections[c])
  {
    Open(v);
  }

  /** A serving thread that nobody waits for is one that is running. */
  lemma ServedOnlyByStops(v: View)
    requires Good(v)
    ensures v.gear.serving && !v.gear.running ==> v.gear.stops > 0
  {
    Open(v);
  }

  /** The next request has no response yet. */
  lemma NotYetAnswered(v: View)
    requires Good(v)
    ensures |v.book.received| !in v.book.answered
  {
    Open(v);
  }

  lemma IdsDistinct(v: View)
    requires Good(v)
    ensures Distinct(v.table.issued)
  {
    Open(v);
  }

  /** Something is lost exactly if a start overlapped a stop, and what is lost stays open. */
  lemma LostExactly(v: View)
    requires Good(v)
    ensures v.table.lost != {} <==> Overlapped(v.gear.phases)
    ensures v.gear.terminated ==> Overlapped(v.gear.phases)
    ensures v.table.lost != {} ==> Replay(v.table.log, NoNeeds) != Some({})
  {
    Open(v);
    if v.table.lost != {} {
      var fd :| fd in v.table.lost;
      assert fd in v.table.owners.Keys;
    }
  }

  /** After the last stop the open descriptors are the lost ones, and every request has its
      response. */
  lemma StoppedForGood(v: View)
    requires Good(v) && !v.gear.running && v.gear.stops == v.gear.sweeps == 0
    ensures Replay(v.table.log, NoNeeds) == Some(v.table.lost) && AllAnswered(v.book)
  {
    Open(v);
    OnlyLostOwned(v.table);
  }

  lemma OnlyLostOwned(t: Table)
    requires TableOwned(t) && t.listener == None && t.connections == map[] && t.files == map[]
    ensures t.owners.Keys == t.lost
  {
    forall fd
      ensures fd in t.owners.Keys <==> fd in t.lost
    {
    }
  }
}
