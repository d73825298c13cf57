/** What a `/deadlock/clear` request does to the threads it finds: their interrupts, and the list. */
module ClearInterrupts {
  import opened Wrappers
  import opened ChaosController

  /** Thread `t` has been started and is on its way out, whatever the cancel flag says. */
  ghost predicate OnItsWayOut(s: State, t: nat) {
    t < |s.workers| && !s.workers[t].phase.New? && Leaving(s.workers[t])
  }

  /** Thread `t` is on its way out, or request `r` has yet to interrupt it. */
  ghost predicate Reached(s: State, r: nat, t: nat) {
    && r < |s.requests| && t < |s.workers| && !s.workers[t].phase.New?
    && (OnItsWayOut(s, t) || (s.requests[r].Interrupting? && t in s.requests[r].todo))
  }

  lemma StartedStays(s: State, a: Action, t: nat)
    requires Enabled(s, a) && t < |s.workers| && !s.workers[t].phase.New?
    ensures t < |Do(s, a).workers| && !Do(s, a).workers[t].phase.New?
  {
  }

  lemma WayOutStays(s: State, a: Action, t: nat)
    requires Enabled(s, a) && OnItsWayOut(s, t)
    ensures OnItsWayOut(Do(s, a), t)
  {
    StartedStays(s, a, t);
    LeavingStep(s, a, t);
  }

  /** The next thread of the snapshot is interrupted if it is alive, and crossed off. */
  lemma NextIsInterrupted(s: State, r: nat, t: nat)
    requires Enabled(s, Advance(r)) && s.requests[r].Interrupting? && s.requests[r].todo != []
    requires t == s.requests[r].todo[0] && t < |s.workers| && !s.workers[t].phase.New?
    ensures OnItsWayOut(Do(s, Advance(r)), t)
  {
  }

  lemma ReachedStep(s: State, a: Action, r: nat, t: nat)
    requires Enabled(s, a) && Reached(s, r, t)
    ensures Reached(Do(s, a), r, t)
  {
    StartedStays(s, a, t);
    if OnItsWayOut(s, t) {
      WayOutStays(s, a, t);
    } else if a == Advance(r) {
      var todo := s.requests[r].todo;
      assert todo != [];
      if t == todo[0] {
        NextIsInterrupted(s, r, t);
      } else {
        assert t in todo[1..];
      }
    } else {
      OtherRequestsStay(s, a, r);
    }
  }

  lemma OtherRequestsStay(s: State, a: Action, r: nat)
    requires Enabled(s, a) && r < |s.requests| && a != Advance(r)
    ensures r < |Do(s, a).requests| && Do(s, a).requests[r] == s.requests[r]
  {
  }

  lemma {:induction false} ReachedRun(s: State, run: seq<Action>, r: nat, t: nat)
    requires Valid(s, run) && Reached(s, r, t)
    ensures Reached(Final(s, run), r, t)
    decreases |run|
  {
    if run != [] {
      ReachedStep(s, run[0], r, t);
      ReachedRun(Do(s, run[0]), run[1..], r, t);
    }
  }

  /** A clear request interrupts every live thread it finds listed: once it is past its interrupts,
      however it interleaves with other requests and threads, each of those threads is finished, past
      its loop, or has an interrupt pending. */
  lemma EveryLiveThreadIsInterrupted(s: State, run: seq<Action>)
    requires Valid(Do(s, RequestClear), run)
    ensures var s', r := Final(Do(s, RequestClear), run), |s.requests|;
            && r < |s'.requests|
            && (!s'.requests[r].Interrupting? ==>
                 forall t :: t in s.listed && t < |s.workers| && s.workers[t].Alive() ==> OnItsWayOut(s', t))
  {
    var s1, r := Do(s, RequestClear), |s.requests|;
    var s' := Final(s1, run);
    RequestsStay(s1, run, r);
    forall t | t in s.listed && t < |s.workers| && s.workers[t].Alive() && !s'.requests[r].Interrupting?
      ensures OnItsWayOut(s', t)
    {
      assert Reached(s1, r, t);
      ReachedRun(s1, run, r, t);
    }
  }

  lemma {:induction false} RequestsStay(s: State, run: seq<Action>, r: nat)
    requires Valid(s, run) && r < |s.requests|
    ensures r < |Final(s, run).requests|
    decreases |run|
  {
    if run != [] {
      if run[0] != Advance(r) { OtherRequestsStay(s, run[0], r); }
      RequestsStay(Do(s, run[0]), run[1..], r);
    }
  }

  /** How often thread `t` is in the list. */
  function Occurrences(listed: seq<nat>, t: nat): nat { multiset(listed)[t] }

  lemma {:induction false} KeepAliveCounts(listed: seq<nat>, ws: seq<Worker>, t: nat)
    ensures Occurrences(KeepAlive(listed, ws), t) == if t < |ws| && ws[t].Alive() then Occurrences(listed, t) else 0
  {
    if listed != [] {
      KeepAliveCounts(listed[1..], ws, t);
      assert listed == [listed[0]] + listed[1..];
    }
  }

  /** With its answer a clear request takes exactly the threads off the list that are not alive. */
  lemma AnswerPrunesTheList(s: State, r: nat)
    requires Enabled(s, Advance(r)) && Do(s, Advance(r)).requests[r].Responded?
    ensures var s' := Do(s, Advance(r));
            && s'.workers == s.workers
            && forall t: nat :: Occurrences(s'.listed, t)
                        == if t < |s.workers| && s.workers[t].Alive() then Occurrences(s.listed, t) else 0
  {
    forall t: nat
      ensures Occurrences(KeepAlive(s.listed, s.workers), t)
           == if t < |s.workers| && s.workers[t].Alive() then Occurrences(s.listed, t) else 0
    {
      KeepAliveCounts(s.listed, s.workers, t);
    }
  }

  /** A deadlock request resets the flag, lists its two new threads one after the other, and then
      starts them in the same order; a clear request sets the flag. */
  lemma RequestsByStep(s: State, a: nat, b: nat, r: nat)
    requires Enabled(s, Advance(r)) && a < |s.workers| && b < |s.workers| && a != b
    requires s.workers[a].phase.New? && s.workers[b].phase.New?
    ensures Do(s, RequestClear).cancelled && !Do(s, RequestDeadlock).cancelled
    ensures var s' := Do(s, Advance(r));
            && (s.requests[r] == Starting(a, b, 0) ==> s'.listed == s.listed + [a] && s'.requests[r] == Starting(a, b, 1))
            && (s.requests[r] == Starting(a, b, 1) ==> s'.listed == s.listed + [b] && s'.requests[r] == Starting(a, b, 2))
            && (s.requests[r] == Starting(a, b, 2) ==>
                 s'.workers == s.workers[a := s.workers[a].(phase := Blocked)] && s'.requests[r] == Starting(a, b, 3))
            && (s.requests[r] == Starting(a, b, 3) ==>
                 s'.workers == s.workers[b := s.workers[b].(phase := Blocked)] && s'.requests[r] == Started)
  {
  }
}
