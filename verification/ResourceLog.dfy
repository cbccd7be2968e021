/** Logs of acquired and released resources, and what it means for one to be in order. */
module ResourceLog {
  import opened Common

  datatype Event<R> = Acquire(resource: R) | Release(resource: R)

  /** The resources held after one more event; None if the event breaks the discipline: a
      resource is acquired while held or before what it needs, or is released while not held
      or while something that needs it is still held. */
  ghost function Apply<R>(held: set<R>, ev: Event<R>, needs: R -> set<R>): Option<set<R>> {
    match ev
    case Acquire(r) => if r !in held && needs(r) <= held then Some(held + {r}) else None
    case Release(r) => if r in held && (forall d :: d in held ==> r !in needs(d)) then Some(held - {r}) else None
  }

  /** The resources held after a log, if all of it is in order. */
  ghost function Replay<R>(log: seq<Event<R>>, needs: R -> set<R>): Option<set<R>> {
    if log == [] then Some({})
    else
      match Replay(log[..|log| - 1], needs)
      case None => None
      case Some(held) => Apply(held, log[|log| - 1], needs)
  }

  lemma ReplayAppend<R>(log: seq<Event<R>>, ev: Event<R>, needs: R -> set<R>)
    requires Replay(log, needs).Some?
    ensures Replay(log + [ev], needs) == Apply(Replay(log, needs).value, ev, needs)
  {
    assert (log + [ev])[..|log|] == log;
  }

  lemma {:induction false} ReplayPrefix<R>(log: seq<Event<R>>, i: nat, needs: R -> set<R>)
    requires i <= |log| && Replay(log, needs).Some?
    ensures Replay(log[..i], needs).Some?
  {
    if i < |log| {
      ReplayPrefix(log[..|log| - 1], i, needs);
      assert log[..|log| - 1][..i] == log[..i];
    } else {
      assert log[..i] == log;
    }
  }

  /** `r` was acquired and has not been released since. */
  ghost predicate Outstanding<R>(log: seq<Event<R>>, r: R) {
    exists j :: 0 <= j < |log| && log[j] == Acquire(r) && forall k :: j < k < |log| ==> log[k] != Release(r)
  }

  lemma {:induction false} HeldIsOutstanding<R>(log: seq<Event<R>>, r: R, needs: R -> set<R>)
    requires Replay(log, needs).Some?
    ensures r in Replay(log, needs).value <==> Outstanding(log, r)
  {
    if log != [] {
      var n := |log| - 1;
      var init := log[..n];
      HeldIsOutstanding(init, r, needs);
      if log[n] == Acquire(r) {
        assert Outstanding(log, r);
      } else if log[n] == Release(r) {
        assert !Outstanding(log, r);
      } else {
        if Outstanding(init, r) {
          var j :| 0 <= j < n && init[j] == Acquire(r) && forall k :: j < k < n ==> init[k] != Release(r);
          assert log[j] == Acquire(r) && forall k :: j < k < n ==> log[k] == init[k];
        }
        if Outstanding(log, r) {
          var j :| 0 <= j < |log| && log[j] == Acquire(r) && forall k :: j < k < |log| ==> log[k] != Release(r);
          assert init[j] == Acquire(r) && forall k :: j < k < n ==> init[k] == log[k];
        }
      }
    }
  }

  /** In an orderly log every release gives back something acquired earlier and not released
      in between: nothing is released twice. */
  lemma ReleasedAtMostOnce<R>(log: seq<Event<R>>, i: nat, r: R, needs: R -> set<R>)
    requires Replay(log, needs).Some? && i < |log| && log[i] == Release(r)
    ensures exists j :: 0 <= j < i && log[j] == Acquire(r) && forall k :: j < k < i ==> log[k] != Release(r)
  {
    ReplayPrefix(log, i + 1, needs);
    ReplayPrefix(log, i, needs);
    assert log[..i + 1][..i] == log[..i];
    HeldIsOutstanding(log[..i], r, needs);
    var j :| 0 <= j < i && log[..i][j] == Acquire(r) && forall k :: j < k < i ==> log[..i][k] != Release(r);
    assert log[j] == Acquire(r) && forall k :: j < k < i ==> log[k] == log[..i][k];
  }

  /** A resource is released only after everything that needs it. */
  lemma DependentsFirst<R>(log: seq<Event<R>>, i: nat, r: R, j: nat, d: R, needs: R -> set<R>)
    requires Replay(log, needs).Some? && j < i < |log| && log[i] == Release(r) && log[j] == Acquire(d) && r in needs(d)
    ensures exists k :: j < k < i && log[k] == Release(d)
  {
    ReplayPrefix(log, i + 1, needs);
    ReplayPrefix(log, i, needs);
    assert log[..i + 1][..i] == log[..i];
    HeldIsOutstanding(log[..i], d, needs);
    var init := log[..i];
    assert init[j] == Acquire(d) && !Outstanding(init, d);
    var k :| j < k < i && init[k] == Release(d);
    assert log[k] == Release(d);
  }

  /** If nothing is held at the end, everything acquired has been released. */
  lemma NothingLeaks<R>(log: seq<Event<R>>, j: nat, r: R, needs: R -> set<R>)
    requires Replay(log, needs) == Some({}) && j < |log| && log[j] == Acquire(r)
    ensures exists k :: j < k < |log| && log[k] == Release(r)
  {
    HeldIsOutstanding(log, r, needs);
  }
}
