/** A RoCE storage session shared by submitters, request workers and closers. The atomic word
    `request_state` admits one of them at a time; every step of every thread may interleave. */
module RoceSession {

  datatype Word = Idle | Active | Closing

  /** Where a call stands. A request starts as its submitter and, once the worker thread has
      been started, goes on as the worker. */
  datatype Pc =
    | Validating          // owns the session; checks the buffer and the transport
    | Answering           // about to publish idle and return without a worker
    | Retaining           // about to retain the IO and the buffer
    | Spawning            // about to start the worker thread
    | CatchRelease        // the thread could not be started: release the buffer,
    | CatchIdle           //   publish idle,
    | CatchComplete       //   complete the IO
    | Running             // the worker waits for the transfer
    | WorkerRelease       // releases the buffer,
    | WorkerIdle          //   publishes idle,
    | WorkerComplete      //   completes the IO
    | HostClosing         // a closer owns the session and closes the transport
    | Reopening           // closing the transport failed: publish idle
    | Deleting            // about to free the session
    | Finished

  /** `retains`, `releases` and `completions` count what the call did to its buffer and IO. */
  datatype Thread = Thread(pc: Pc, buffer: nat, retains: nat, releases: nat, completions: nat)

  /** `fault` records that a thread touched the session after it was freed. */
  datatype State = State(word: Word, freed: bool, threads: map<nat, Thread>, refs: map<nat, int>, fault: bool)

  const START := State(Idle, false, map[], map[], false)

  /** The steps that read or write the session object. The worker's wait does not: it holds
      its own reference to the transport. */
  predicate Touches(pc: Pc) {
    pc == Validating || pc == Answering || pc == Retaining || pc == Spawning || pc == CatchIdle || pc == WorkerIdle ||
    pc == HostClosing || pc == Reopening || pc == Deleting
  }

  /** Who a call is while it owns the session: a request from entering to publishing idle, a
      closer until it has published idle or freed the session. */
  datatype Owner = Nobody | Requester | Closer

  function Role(pc: Pc): Owner {
    match pc
    case Validating => Requester
    case Answering => Requester
    case Retaining => Requester
    case Spawning => Requester
    case CatchRelease => Requester
    case CatchIdle => Requester
    case Running => Requester
    case WorkerRelease => Requester
    case WorkerIdle => Requester
    case HostClosing => Closer
    case Reopening => Closer
    case Deleting => Closer
    case CatchComplete => Nobody
    case WorkerComplete => Nobody
    case Finished => Nobody
  }

  /** The call holds a reference to its buffer. */
  predicate HoldsBuffer(pc: Pc) { pc == Spawning || pc == CatchRelease || pc == Running || pc == WorkerRelease }

  datatype Branch = Invalid | Unavailable | Proceed

  datatype Action =
    | Submit(id: nat, buffer: nat)
    | Close(id: nat)
    | Step(id: nat, branch: Branch)

  /** Callers start calls under new names on a session they have not freed; threads step until
      they are finished. */
  predicate Enabled(s: State, a: Action) {
    match a
    case Submit(id, _) => !s.freed && id !in s.threads
    case Close(id) => !s.freed && id !in s.threads
    case Step(id, _) => id in s.threads && s.threads[id].pc != Finished
  }

  function Refs(s: State, b: nat): int { if b in s.refs then s.refs[b] else 0 }

  function SetThread(s: State, id: nat, t: Thread): State { s.(threads := s.threads[id := t]) }

  /** The next place of a call. */
  function Target(pc: Pc, branch: Branch): Pc {
    match pc
    case Validating => if branch == Proceed then Retaining else Answering
    case Answering => Finished
    case Retaining => Spawning
    case Spawning => if branch == Proceed then Running else CatchRelease
    case CatchRelease => CatchIdle
    case CatchIdle => CatchComplete
    case CatchComplete => Finished
    case Running => WorkerRelease
    case WorkerRelease => WorkerIdle
    case WorkerIdle => WorkerComplete
    case WorkerComplete => Finished
    case HostClosing => if branch == Proceed then Deleting else Reopening
    case Reopening => Finished
    case Deleting => Finished
    case Finished => Finished
  }

  /** What the step does besides moving on. */
  predicate Retains(pc: Pc) { pc == Retaining }
  predicate Releases(pc: Pc) { pc == CatchRelease || pc == WorkerRelease }
  predicate Publishes(pc: Pc) { pc == Answering || pc == CatchIdle || pc == WorkerIdle || pc == Reopening }
  predicate Completes(pc: Pc) { pc == CatchComplete || pc == WorkerComplete }
  predicate Frees(pc: Pc) { pc == Deleting }

  function Count(b: bool): nat { if b then 1 else 0 }

  function Moved(t: Thread, branch: Branch): Thread {
    Thread(Target(t.pc, branch), t.buffer, t.retains + Count(Retains(t.pc)), t.releases + Count(Releases(t.pc)),
           t.completions + Count(Completes(t.pc)))
  }

  function Run(s: State, id: nat, branch: Branch): State
    requires id in s.threads
  {
    var t := s.threads[id];
    State(if Publishes(t.pc) then Idle else s.word,
          s.freed || Frees(t.pc),
          s.threads[id := Moved(t, branch)],
          if Retains(t.pc) then s.refs[t.buffer := Refs(s, t.buffer) + 1]
          else if Releases(t.pc) then s.refs[t.buffer := Refs(s, t.buffer) - 1]
          else s.refs,
          s.fault)
  }

  function Next(s: State, a: Action): State
    requires Enabled(s, a)
  {
    match a
    case Submit(id, b) =>
      if s.word == Idle then SetThread(s, id, Thread(Validating, b, 0, 0, 0)).(word := Active)
      else SetThread(s, id, Thread(Finished, b, 0, 0, 0))
    case Close(id) =>
      if s.word == Idle then SetThread(s, id, Thread(HostClosing, 0, 0, 0, 0)).(word := Closing)
      else SetThread(s, id, Thread(Finished, 0, 0, 0, 0))
    case Step(id, branch) =>
      var s' := Run(s, id, branch);
      s'.(fault := s.fault || (s.freed && Touches(s.threads[id].pc)))
  }

  // ---------------------------------------------------------------------------
  // The invariant

  function Holders(threads: map<nat, Thread>, b: nat): set<nat> {
    set t | t in threads && HoldsBuffer(threads[t].pc) && threads[t].buffer == b
  }

  /** A call's counters follow from where it stands. */
  predicate Accounted(t: Thread) {
    match t.pc
    case Validating => t.retains == t.releases == t.completions == 0
    case Answering => t.retains == t.releases == t.completions == 0
    case Retaining => t.retains == t.releases == t.completions == 0
    case Spawning => t.retains == 1 && t.releases == t.completions == 0
    case CatchRelease => t.retains == 1 && t.releases == t.completions == 0
    case CatchIdle => t.retains == t.releases == 1 && t.completions == 0
    case CatchComplete => t.retains == t.releases == 1 && t.completions == 0
    case Running => t.retains == 1 && t.releases == t.completions == 0
    case WorkerRelease => t.retains == 1 && t.releases == t.completions == 0
    case WorkerIdle => t.retains == t.releases == 1 && t.completions == 0
    case WorkerComplete => t.retains == t.releases == 1 && t.completions == 0
    case HostClosing => t.retains == t.releases == t.completions == 0
    case Reopening => t.retains == t.releases == t.completions == 0
    case Deleting => t.retains == t.releases == t.completions == 0
    case Finished => t.retains == t.releases == t.completions && t.retains <= 1
  }

  function Roles(threads: map<nat, Thread>): (roles: map<nat, Owner>)
    ensures roles.Keys == threads.Keys && forall t :: t in threads ==> roles[t] == Role(threads[t].pc)
  {
    map t | t in threads :: Role(threads[t].pc)
  }

  /** The word names the kind of the one call that owns the session. */
  ghost predicate WordFits(word: Word, freed: bool, roles: map<nat, Owner>) {
    && (forall t, u :: t in roles && u in roles && roles[t] != Nobody && roles[u] != Nobody ==> t == u)
    && (word == Idle <==> (!freed && forall t :: t in roles ==> roles[t] == Nobody))
    && (forall t :: t in roles && roles[t] == Requester ==> word == Active && !freed)
    && (forall t :: t in roles && roles[t] == Closer ==> word == Closing && !freed)
  }

  ghost predicate Inv(s: State) {
    && WordFits(s.word, s.freed, Roles(s.threads)) && !s.fault
    && (forall t :: t in s.threads ==> Accounted(s.threads[t]))
    && (forall b :: Refs(s, b) == |Holders(s.threads, b)|)
  }

  lemma HoldersMove(threads: map<nat, Thread>, id: nat, t: Thread, b: nat)
    ensures Holders(threads[id := t], b) ==
            if HoldsBuffer(t.pc) && t.buffer == b then Holders(threads, b) + {id} else Holders(threads, b) - {id}
  {
  }

  /** A thread that neither gains nor loses its reference leaves every count alone. */
  lemma RefsSame(s: State, s': State, id: nat, t: Thread)
    requires forall b :: Refs(s, b) == |Holders(s.threads, b)|
    requires s'.refs == s.refs && s'.threads == s.threads[id := t]
    requires if id in s.threads
             then HoldsBuffer(t.pc) == HoldsBuffer(s.threads[id].pc) && t.buffer == s.threads[id].buffer
             else !HoldsBuffer(t.pc)
    ensures forall b :: Refs(s', b) == |Holders(s'.threads, b)|
  {
    forall b
      ensures Refs(s', b) == |Holders(s'.threads, b)|
    {
      HoldersMove(s.threads, id, t, b);
      assert Holders(s'.threads, b) == Holders(s.threads, b);
    }
  }

  lemma RefsGrow(s: State, s': State, id: nat, t: Thread)
    requires forall b :: Refs(s, b) == |Holders(s.threads, b)|
    requires id in s.threads && !HoldsBuffer(s.threads[id].pc) && HoldsBuffer(t.pc)
    requires s'.refs == s.refs[t.buffer := Refs(s, t.buffer) + 1] && s'.threads == s.threads[id := t]
    ensures forall b :: Refs(s', b) == |Holders(s'.threads, b)|
  {
    forall b
      ensures Refs(s', b) == |Holders(s'.threads, b)|
    {
      HoldersMove(s.threads, id, t, b);
      assert id !in Holders(s.threads, b);
    }
  }

  lemma RefsShrink(s: State, s': State, id: nat, t: Thread)
    requires forall b :: Refs(s, b) == |Holders(s.threads, b)|
    requires id in s.threads && HoldsBuffer(s.threads[id].pc) && !HoldsBuffer(t.pc) && t.buffer == s.threads[id].buffer
    requires s'.refs == s.refs[t.buffer := Refs(s, t.buffer) - 1] && s'.threads == s.threads[id := t]
    ensures forall b :: Refs(s', b) == |Holders(s'.threads, b)|
  {
    forall b
      ensures Refs(s', b) == |Holders(s'.threads, b)|
    {
      HoldersMove(s.threads, id, t, b);
      if b == t.buffer {
        assert id in Holders(s.threads, b);
      } else {
        assert id !in Holders(s.threads, b);
      }
    }
  }

  /** How a step changes what a call owns and holds. */
  lemma Places(pc: Pc, branch: Branch)
    ensures var pc' := Target(pc, branch);
            && Role(pc') == (if Publishes(pc) || Frees(pc) then Nobody else Role(pc))
            && (Publishes(pc) ==> Role(pc) != Nobody) && (Frees(pc) ==> Role(pc) == Closer && !Publishes(pc))
            && (Touches(pc) ==> Role(pc) != Nobody)
            && HoldsBuffer(pc') == (Retains(pc) || (HoldsBuffer(pc) && !Releases(pc)))
            && (Releases(pc) ==> HoldsBuffer(pc)) && (Retains(pc) ==> !HoldsBuffer(pc))
  {
  }

  lemma MovedAccounted(t: Thread, branch: Branch)
    requires Accounted(t)
    ensures Accounted(Moved(t, branch))
  {
  }

  lemma RunRefs(s: State, id: nat, branch: Branch)
    requires id in s.threads && forall b :: Refs(s, b) == |Holders(s.threads, b)|
    ensures var s' := Run(s, id, branch); forall b :: Refs(s', b) == |Holders(s'.threads, b)|
  {
    var s', t := Run(s, id, branch), s.threads[id];
    Places(t.pc, branch);
    if Retains(t.pc) {
      RefsGrow(s, s', id, Moved(t, branch));
    } else if Releases(t.pc) {
      RefsShrink(s, s', id, Moved(t, branch));
    } else {
      RefsSame(s, s', id, Moved(t, branch));
    }
  }

  /** Ownership moves as the word says. */
  lemma WordMoves(word: Word, freed: bool, roles: map<nat, Owner>, id: nat, publishes: bool, frees: bool)
    requires WordFits(word, freed, roles) && id in roles
    requires (publishes ==> roles[id] != Nobody) && (frees ==> roles[id] == Closer && !publishes)
    ensures WordFits(if publishes then Idle else word, freed || frees,
                     roles[id := if publishes || frees then Nobody else roles[id]])
  {
    if !publishes && !frees {
      assert roles[id := roles[id]] == roles;
    }
  }

  lemma RunWord(s: State, id: nat, branch: Branch)
    requires WordFits(s.word, s.freed, Roles(s.threads)) && id in s.threads
    ensures var s' := Run(s, id, branch); WordFits(s'.word, s'.freed, Roles(s'.threads))
    ensures !(s.freed && Touches(s.threads[id].pc))
  {
    var t := s.threads[id];
    Places(t.pc, branch);
    RolesMove(s.threads, id, Moved(t, branch));
    RunFits(s, Run(s, id, branch), id, Moved(t, branch), Publishes(t.pc), Frees(t.pc), Touches(t.pc));
  }

  lemma RolesMove(threads: map<nat, Thread>, id: nat, t: Thread)
    ensures Roles(threads[id := t]) == Roles(threads)[id := Role(t.pc)]
  {
  }

  lemma RunFits(s: State, s': State, id: nat, t: Thread, publishes: bool, frees: bool, touches: bool)
    requires WordFits(s.word, s.freed, Roles(s.threads)) && id in s.threads
    requires s'.word == (if publishes then Idle else s.word) && s'.freed == (s.freed || frees)
    requires Roles(s'.threads) == Roles(s.threads)[id := Role(t.pc)]
    requires Role(t.pc) == if publishes || frees then Nobody else Role(s.threads[id].pc)
    requires publishes ==> Role(s.threads[id].pc) != Nobody
    requires frees ==> Role(s.threads[id].pc) == Closer && !publishes
    requires touches ==> Role(s.threads[id].pc) != Nobody
    ensures WordFits(s'.word, s'.freed, Roles(s'.threads)) && !(s.freed && touches)
  {
    WordMoves(s.word, s.freed, Roles(s.threads), id, publishes, frees);
    assert Roles(s.threads)[id] == Role(s.threads[id].pc);
  }

  lemma WordEnters(word: Word, word': Word, roles: map<nat, Owner>, id: nat, role: Owner)
    requires WordFits(word, false, roles) && id !in roles
    requires if word == Idle then (role == Requester && word' == Active) || (role == Closer && word' == Closing)
             else role == Nobody && word' == word
    ensures WordFits(word', false, roles[id := role])
  {
    var roles' := roles[id := role];
    if word == Idle {
      assert roles'[id] != Nobody;
    } else {
      var u :| u in roles && roles[u] != Nobody;
      assert roles'[u] != Nobody;
    }
  }

  /** A new call that enters, or is turned away. */
  lemma EnterInv(s: State, id: nat, t: Thread, word: Word)
    requires Inv(s) && id !in s.threads && !s.freed && Accounted(t) && !HoldsBuffer(t.pc)
    requires if s.word == Idle
             then (Role(t.pc) == Requester && word == Active) || (Role(t.pc) == Closer && word == Closing)
             else Role(t.pc) == Nobody && word == s.word
    ensures Inv(SetThread(s, id, t).(word := word))
  {
    var s' := SetThread(s, id, t).(word := word);
    RefsSame(s, s', id, t);
    WordEnters(s.word, word, Roles(s.threads), id, Role(t.pc));
    RolesMove(s.threads, id, t);
  }

  lemma StepInv(s: State, id: nat, branch: Branch)
    requires Inv(s) && id in s.threads
    ensures Inv(Run(s, id, branch)) && !(s.freed && Touches(s.threads[id].pc))
  {
    RunWord(s, id, branch);
    RunRefs(s, id, branch);
    MovedAccounted(s.threads[id], branch);
  }

  lemma NextInv(s: State, a: Action)
    requires Inv(s) && Enabled(s, a)
    ensures Inv(Next(s, a))
  {
    var s' := Next(s, a);
    match a
    case Submit(id, b) =>
      EnterInv(s, id, s'.threads[id], s'.word);
    case Close(id) =>
      EnterInv(s, id, s'.threads[id], s'.word);
    case Step(id, branch) =>
      StepInv(s, id, branch);
      assert s' == Run(s, id, branch);
  }

  predicate Trace(s: State, actions: seq<Action>, s': State)
    decreases |actions|
  {
    if actions == [] then s' == s else Enabled(s, actions[0]) && Trace(Next(s, actions[0]), actions[1..], s')
  }

  lemma {:induction false} TraceInv(s: State, actions: seq<Action>, s': State)
    requires Inv(s) && Trace(s, actions, s')
    ensures Inv(s')
    decreases |actions|
  {
    if actions != [] {
      NextInv(s, actions[0]);
      TraceInv(Next(s, actions[0]), actions[1..], s');
    }
  }

  // ---------------------------------------------------------------------------
  // What it means

  predicate WorkerActive(pc: Pc) { pc == Running || pc == WorkerRelease || pc == WorkerIdle }

  /** In every interleaving: at most one worker is active; while one is, the word is Active
      and the session is not freed, so no close can succeed; nothing touches the session
      after it is freed; buffer references equal the calls that hold one; and a finished call
      has released its buffer and completed its IO exactly as often as it retained them. */
  lemma SessionSafe(actions: seq<Action>, s: State)
    requires Trace(START, actions, s)
    ensures !s.fault
    ensures forall t, u ::
              t in s.threads && u in s.threads && WorkerActive(s.threads[t].pc) && WorkerActive(s.threads[u].pc) ==>
                t == u
    ensures forall t :: t in s.threads && WorkerActive(s.threads[t].pc) ==> s.word == Active && !s.freed
    ensures forall b :: Refs(s, b) == |Holders(s.threads, b)|
    ensures forall t :: t in s.threads && s.threads[t].pc == Finished ==>
              s.threads[t].retains == s.threads[t].releases == s.threads[t].completions <= 1
    ensures forall t :: t in s.threads ==> s.threads[t].releases <= s.threads[t].retains <= 1
  {
    assert Inv(START) by {
      forall b
        ensures Refs(START, b) == |Holders(START.threads, b)|
      {
        assert Holders(START.threads, b) == {};
      }
    }
    TraceInv(START, actions, s);
    assert forall t :: t in s.threads && WorkerActive(s.threads[t].pc) ==> Roles(s.threads)[t] == Requester;
  }

  /** A close gets past the word exactly when the session is idle, and then no call owns it. */
  lemma CloseOnlyFromIdle(s: State, id: nat)
    requires Inv(s) && Enabled(s, Close(id))
    ensures Next(s, Close(id)).threads[id].pc == HostClosing <==>
            forall t :: t in s.threads ==> Role(s.threads[t].pc) == Nobody
  {
    var roles := Roles(s.threads);
    assert forall t :: t in s.threads ==> roles[t] == Role(s.threads[t].pc);
  }

  /** A request is admitted exactly when no call owns the session; a refused one is over at once
      and changes nothing else. */
  lemma RequestOnlyFromIdle(s: State, id: nat, b: nat)
    requires Inv(s) && Enabled(s, Submit(id, b))
    ensures var s' := Next(s, Submit(id, b));
            if forall t :: t in s.threads ==> Role(s.threads[t].pc) == Nobody
            then s'.word == Active && s'.threads[id] == Thread(Validating, b, 0, 0, 0)
            else s' == s.(threads := s.threads[id := Thread(Finished, b, 0, 0, 0)])
  {
    var roles := Roles(s.threads);
    assert forall t :: t in s.threads ==> roles[t] == Role(s.threads[t].pc);
  }

  /** From `s` to `s'` only the given call has moved; references moved by what it says it did. */
  ghost predicate Alone(s: State, s': State, id: nat) {
    && id in s.threads && s'.threads.Keys == s.threads.Keys && s'.freed == s.freed
    && (forall t :: t in s.threads && t != id ==> s'.threads[t] == s.threads[t])
    && s'.threads[id].buffer == s.threads[id].buffer
    && (forall b :: Refs(s', b) - Refs(s, b) ==
          if b == s.threads[id].buffer then Kept(s'.threads[id]) - Kept(s.threads[id]) else 0)
  }

  function Kept(t: Thread): int { t.retains - t.releases }

  lemma StepAlone(s: State, s1: State, actions: seq<Action>, id: nat, branch: Branch)
    returns (longer: seq<Action>, s2: State)
    requires Trace(s, actions, s1) && Alone(s, s1, id) && s1.threads[id].pc != Finished && s1.threads[id].pc != Deleting
    ensures longer == actions + [Step(id, branch)] && Trace(s, longer, s2) && Alone(s, s2, id)
    ensures s2.threads[id] == Moved(s1.threads[id], branch)
    ensures s2.word == if Publishes(s1.threads[id].pc) then Idle else s1.word
  {
    longer, s2 := Further(s, actions, s1, Step(id, branch));
    assert Alone(s1, s2, id);
  }

  /** What a request that has passed its checks has done when it is at `pc`. */
  function DoneBy(pc: Pc): (nat, nat, nat) {
    match pc
    case Retaining => (0, 0, 0)
    case Spawning => (1, 0, 0)
    case CatchRelease => (1, 0, 0)
    case Running => (1, 0, 0)
    case WorkerRelease => (1, 0, 0)
    case Finished => (1, 1, 1)
    case _ => (1, 1, 0)
  }

  predicate Past(pc: Pc) {
    pc == Retaining || pc == Spawning || pc == CatchRelease || pc == CatchIdle || pc == CatchComplete ||
    pc == Running || pc == WorkerRelease || pc == WorkerIdle || pc == WorkerComplete || pc == Finished
  }

  predicate OnItsWay(t: Thread) { Past(t.pc) && (t.retains, t.releases, t.completions) == DoneBy(t.pc) }

  lemma MovesOn(t: Thread, branch: Branch)
    requires OnItsWay(t) && t.pc != Finished
    ensures OnItsWay(Moved(t, branch)) && Remaining(Moved(t, branch).pc) < Remaining(t.pc)
    ensures PublishedIdle(Moved(t, branch).pc) <==> Publishes(t.pc) || PublishedIdle(t.pc)
  {
  }

  /** From its checks on, a request needs nothing but its own steps to get to its end: its buffer
      retained once and released once, its IO completed once, the session idle. */
  lemma {:induction false} RunsOut(s: State, s1: State, actions: seq<Action>, id: nat, starts: bool)
    returns (longer: seq<Action>, s': State)
    requires Trace(s, actions, s1) && Alone(s, s1, id) && OnItsWay(s1.threads[id])
    requires PublishedIdle(s1.threads[id].pc) ==> s1.word == Idle
    ensures Trace(s, longer, s') && Alone(s, s', id) && s'.word == Idle
    ensures s'.threads[id] == Thread(Finished, s.threads[id].buffer, 1, 1, 1)
    decreases Remaining(s1.threads[id].pc)
  {
    if s1.threads[id].pc == Finished {
      longer, s' := actions, s1;
    } else {
      var branch := if s1.threads[id].pc == Spawning && !starts then Unavailable else Proceed;
      MovesOn(s1.threads[id], branch);
      var more, s2 := StepAlone(s, s1, actions, id, branch);
      longer, s' := RunsOut(s, s2, more, id, starts);
    }
  }

  /** An admitted request that passes its checks: as above, and every reference count is back
      where it was, whether or not the worker thread can be started. */
  lemma RequestCompletes(s: State, id: nat, starts: bool) returns (actions: seq<Action>, s': State)
    requires id in s.threads && s.threads[id] == Thread(Validating, s.threads[id].buffer, 0, 0, 0)
    ensures Trace(s, actions, s') && Alone(s, s', id) && s'.word == Idle
    ensures s'.threads[id] == Thread(Finished, s.threads[id].buffer, 1, 1, 1)
    ensures forall b :: Refs(s', b) == Refs(s, b)
  {
    actions, s' := StepAlone(s, s, [], id, Proceed);
    actions, s' := RunsOut(s, s', actions, id, starts);
  }

  /** One that fails its checks touches neither and leaves the session idle. */
  lemma RequestRefused(s: State, id: nat, fails: Branch) returns (actions: seq<Action>, s': State)
    requires id in s.threads && s.threads[id] == Thread(Validating, s.threads[id].buffer, 0, 0, 0) && fails != Proceed
    ensures Trace(s, actions, s') && Alone(s, s', id) && s'.word == Idle
    ensures s'.threads[id] == Thread(Finished, s.threads[id].buffer, 0, 0, 0)
  {
    actions, s' := StepAlone(s, s, [], id, fails);
    actions, s' := StepAlone(s, s', actions, id, Proceed);
  }

  /** A close that got past the word frees the session if the transport closes, and otherwise
      leaves it idle. */
  lemma CloseEnds(s: State, id: nat, branch: Branch) returns (s': State)
    requires id in s.threads && s.threads[id].pc == HostClosing
    ensures Trace(s, [Step(id, branch), Step(id, Proceed)], s') && id in s'.threads && s'.threads[id].pc == Finished
    ensures if branch == Proceed then s'.freed && s'.word == s.word else s'.freed == s.freed && s'.word == Idle
    ensures s'.refs == s.refs && s'.threads.Keys == s.threads.Keys
    ensures forall t :: t in s.threads && t != id ==> s'.threads[t] == s.threads[t]
  {
    var s1 := Next(s, Step(id, branch));
    s' := Next(s1, Step(id, Proceed));
    assert [Step(id, branch), Step(id, Proceed)][1..] == [Step(id, Proceed)] && [Step(id, Proceed)][1..] == [];
    assert Trace(s', [], s') && Trace(s1, [Step(id, Proceed)], s');
  }

  lemma Further(s: State, actions: seq<Action>, s1: State, a: Action) returns (longer: seq<Action>, s2: State)
    requires Trace(s, actions, s1) && Enabled(s1, a)
    ensures longer == actions + [a] && s2 == Next(s1, a) && Trace(s, longer, s2)
  {
    longer, s2 := actions + [a], Next(s1, a);
    TraceThen(s, actions, s1, a);
  }

  lemma {:induction false} TraceThen(s: State, actions: seq<Action>, s1: State, a: Action)
    requires Trace(s, actions, s1) && Enabled(s1, a)
    ensures Trace(s, actions + [a], Next(s1, a))
    decreases |actions|
  {
    if actions == [] {
      assert ([] + [a])[1..] == [];
    } else {
      TraceThen(Next(s, actions[0]), actions[1..], s1, a);
      assert (actions + [a])[1..] == actions[1..] + [a];
    }
  }

  /** After a call has published idle it never touches the session again. */
  predicate PublishedIdle(pc: Pc) { pc == CatchComplete || pc == WorkerComplete || pc == Finished }

  lemma {:induction false} NoTouchAfterIdle(s: State, actions: seq<Action>, s': State, id: nat)
    requires Trace(s, actions, s') && id in s.threads && PublishedIdle(s.threads[id].pc)
    ensures id in s'.threads && PublishedIdle(s'.threads[id].pc) && !Touches(s'.threads[id].pc)
    decreases |actions|
  {
    if actions != [] {
      NoTouchAfterIdle(Next(s, actions[0]), actions[1..], s', id);
    }
  }

  /** Steps a call still has to take. */
  function Remaining(pc: Pc): nat {
    match pc
    case Validating => 7
    case Retaining => 6
    case Spawning => 5
    case CatchRelease => 3
    case CatchIdle => 2
    case CatchComplete => 1
    case Running => 4
    case WorkerRelease => 3
    case WorkerIdle => 2
    case WorkerComplete => 1
    case Answering => 1
    case HostClosing => 2
    case Reopening => 1
    case Deleting => 1
    case Finished => 0
  }

  /** No call ever blocks or loops: each of its steps is enabled and brings it closer to its
      end, and steps of other calls do not move it. */
  lemma CallsFinish(s: State, a: Action, id: nat)
    requires Enabled(s, a) && id in s.threads
    ensures var s' := Next(s, a);
            && id in s'.threads
            && (a.Step? && a.id == id ==> Remaining(s'.threads[id].pc) < Remaining(s.threads[id].pc))
            && (a.id != id ==> s'.threads[id] == s.threads[id])
  {
    if a.Step? && a.id == id {
      Advances(s.threads[id].pc, a.branch);
    }
  }

  lemma Advances(pc: Pc, branch: Branch)
    requires pc != Finished
    ensures Remaining(Target(pc, branch)) < Remaining(pc)
  {
  }
}
