/**
 The clearable deadlock of the chaos controller, as an interleaving step system.

 Any number of `/deadlock` and `/deadlock/clear` requests run at the same time as the threads
 they create.  Every shared read or write is one action; an action is a function of the state,
 and the scheduler (and the outcome of a timed wait) is the choice of the next action.
 */
module ChaosController {
  import opened Wrappers

  datatype LockId = Lock1 | Lock2

  /** `First` threads take lock1 and poll for lock2; `Second` threads do the opposite. */
  datatype Kind = First | Second {
    function Outer(): LockId { if First? then Lock1 else Lock2 }
    function Inner(): LockId { if First? then Lock2 else Lock1 }
  }

  /** Where a thread is in its body.  `New` is created but not started. */
  datatype Phase =
    | New
    | Blocked      // in outer.lock(), which no interrupt ends
    | Checking     // holds outer, about to read the cancel flag
    | Entering     // holds outer, about to call inner.tryLock
    | Waiting      // holds outer, inside the timed wait for inner
    | HoldingBoth  // got inner, about to unlock it
    | Releasing    // about to unlock outer
    | Finished

  datatype Worker = Worker(kind: Kind, phase: Phase, interrupted: bool) {
    /** Thread.isAlive: started and not finished. */
    predicate Alive() { !phase.New? && !phase.Finished? }

    predicate HoldsOuter() {
      phase in {Checking, Entering, Waiting, HoldingBoth, Releasing}
    }

    predicate Holds(l: LockId) {
      (l == kind.Outer() && HoldsOuter()) || (l == kind.Inner() && phase.HoldingBoth?)
    }
  }

  /** One HTTP request in progress.  Iterations run over the list's snapshot, as a
      CopyOnWriteArrayList does. `alive` and `unstarted` record what the count found. */
  datatype Request =
    | Starting(first: nat, second: nat, pc: nat)
    | Interrupting(todo: seq<nat>)
    | Counting(snapshot: seq<nat>, next: nat, alive: seq<nat>, unstarted: seq<nat>)
    | Responded(snapshot: seq<nat>, alive: seq<nat>, unstarted: seq<nat>)
    | Started

  datatype State = State(
    cancelled: bool,
    lock1: Option<nat>,
    lock2: Option<nat>,
    workers: seq<Worker>,
    listed: seq<nat>,
    requests: seq<Request>)
  {
    function Owner(l: LockId): Option<nat> { if l.Lock1? then lock1 else lock2 }

    function SetOwner(l: LockId, o: Option<nat>): State {
      if l.Lock1? then this.(lock1 := o) else this.(lock2 := o)
    }

    function Put(t: nat, w: Worker): State
      requires t < |workers|
    {
      this.(workers := workers[t := w])
    }

    function Move(t: nat, p: Phase): State
      requires t < |workers|
    {
      Put(t, workers[t].(phase := p))
    }
  }

  const EMPTY := State(false, None, None, [], [], [])

  datatype Action =
    | RequestDeadlock          // reset the flag, create the two threads
    | RequestClear             // set the flag, take the snapshot to interrupt
    | Advance(request: nat)    // the next step of a request
    | TakeOuter(t: nat)        // outer.lock() returns
    | ReadFlag(t: nat)         // while (!deadlockCancelled.get())
    | Enter(t: nat)            // inner.tryLock starts
    | Acquire(t: nat)          // ... and gets the lock while waiting
    | Expire(t: nat)           // ... or times out
    | Throw(t: nat)            // ... or is interrupted
    | ReleaseInner(t: nat)
    | ReleaseOuter(t: nat)
  {
    predicate ByThread() {
      TakeOuter? || ReadFlag? || Enter? || Acquire? || Expire? || Throw? || ReleaseInner? || ReleaseOuter?
    }
  }

  predicate Enabled(s: State, a: Action) {
    match a
    case RequestDeadlock => true
    case RequestClear => true
    case Advance(r) => r < |s.requests| && !s.requests[r].Started? && !s.requests[r].Responded?
    case TakeOuter(t) =>
      t < |s.workers| && s.workers[t].phase.Blocked? && s.Owner(s.workers[t].kind.Outer()).None?
    case ReadFlag(t) => t < |s.workers| && s.workers[t].phase.Checking?
    case Enter(t) => t < |s.workers| && s.workers[t].phase.Entering?
    case Acquire(t) =>
      t < |s.workers| && s.workers[t].phase.Waiting? && s.Owner(s.workers[t].kind.Inner()).None?
    case Expire(t) => t < |s.workers| && s.workers[t].phase.Waiting?
    case Throw(t) => t < |s.workers| && s.workers[t].phase.Waiting? && s.workers[t].interrupted
    case ReleaseInner(t) => t < |s.workers| && s.workers[t].phase.HoldingBoth?
    case ReleaseOuter(t) => t < |s.workers| && s.workers[t].phase.Releasing?
  }

  function Do(s: State, a: Action): State
    requires Enabled(s, a)
  {
    match a
    case RequestDeadlock =>
      var n := |s.workers|;
      s.(cancelled := false,
         workers := s.workers + [Worker(First, New, false), Worker(Second, New, false)],
         requests := s.requests + [Starting(n, n + 1, 0)])
    case RequestClear =>
      s.(cancelled := true, requests := s.requests + [Interrupting(s.listed)])
    case Advance(r) => AdvanceRequest(s, r)
    case TakeOuter(t) => s.SetOwner(s.workers[t].kind.Outer(), Some(t)).Move(t, Checking)
    case ReadFlag(t) => s.Move(t, if s.cancelled then Releasing else Entering)
    case Enter(t) =>
      var w := s.workers[t];
      // a pending interrupt throws on entry and is consumed
      if w.interrupted then s.Put(t, w.(phase := Releasing, interrupted := false))
      else if s.Owner(w.kind.Inner()).None? then s.SetOwner(w.kind.Inner(), Some(t)).Move(t, HoldingBoth)
      else s.Move(t, Waiting)
    case Acquire(t) => s.SetOwner(s.workers[t].kind.Inner(), Some(t)).Move(t, HoldingBoth)
    case Expire(t) => s.Move(t, Checking)
    case Throw(t) => s.Put(t, s.workers[t].(phase := Releasing, interrupted := false))
    case ReleaseInner(t) => s.SetOwner(s.workers[t].kind.Inner(), None).Move(t, Releasing)
    case ReleaseOuter(t) => s.SetOwner(s.workers[t].kind.Outer(), None).Move(t, Finished)
  }

  /** Applies `f` to thread `t`; identifiers outside the thread table do not occur. */
  function Touch(ws: seq<Worker>, t: nat, f: Worker -> Worker): seq<Worker> {
    if t < |ws| then ws[t := f(ws[t])] else ws
  }

  function Launch(w: Worker): Worker { if w.phase.New? then w.(phase := Blocked) else w }

  function Interrupt(w: Worker): Worker { if w.Alive() then w.(interrupted := true) else w }

  function KeepAlive(listed: seq<nat>, ws: seq<Worker>): seq<nat> {
    if listed == [] then []
    else (if listed[0] < |ws| && ws[listed[0]].Alive() then [listed[0]] else []) + KeepAlive(listed[1..], ws)
  }

  function AdvanceRequest(s: State, r: nat): State
    requires Enabled(s, Advance(r))
  {
    match s.requests[r]
    case Starting(a, b, pc) =>
      var s' := s.(requests := s.requests[r := if pc >= 3 then Started else Starting(a, b, pc + 1)]);
      if pc == 0 then s'.(listed := s.listed + [a])
      else if pc == 1 then s'.(listed := s.listed + [b])
      else if pc == 2 then s'.(workers := Touch(s.workers, a, Launch))
      else s'.(workers := Touch(s.workers, b, Launch))
    case Interrupting(todo) =>
      // the joins only wait; the count then streams over a new snapshot
      if todo == [] then s.(requests := s.requests[r := Counting(s.listed, 0, [], [])])
      else s.(requests := s.requests[r := Interrupting(todo[1..])],
              workers := Touch(s.workers, todo[0], Interrupt))
    case Counting(snapshot, i, alive, unstarted) =>
      if i >= |snapshot| then
        s.(requests := s.requests[r := Responded(snapshot, alive, unstarted)],
           listed := KeepAlive(s.listed, s.workers))
      else
        var t := snapshot[i];
        s.(requests := s.requests[r := Counting(
             snapshot, i + 1,
             if t < |s.workers| && s.workers[t].Alive() then alive + [t] else alive,
             if t < |s.workers| && s.workers[t].phase.New? then unstarted + [t] else unstarted)])
  }

  predicate Valid(s: State, run: seq<Action>)
    decreases |run|
  {
    run == [] || (Enabled(s, run[0]) && Valid(Do(s, run[0]), run[1..]))
  }

  function Final(s: State, run: seq<Action>): State
    requires Valid(s, run)
    decreases |run|
  {
    if run == [] then s else Final(Do(s, run[0]), run[1..])
  }

  lemma {:induction false} RunConcat(s: State, before: seq<Action>, after: seq<Action>)
    requires Valid(s, before) && Valid(Final(s, before), after)
    ensures Valid(s, before + after) && Final(s, before + after) == Final(Final(s, before), after)
    decreases |before|
  {
    if before == [] {
      assert before + after == after;
    } else {
      assert (before + after)[1..] == before[1..] + after;
      RunConcat(Do(s, before[0]), before[1..], after);
    }
  }

  // ----- Safety: the locks and the phases agree in every reachable state -----

  ghost predicate LocksAgree(s: State) {
    forall l: LockId, t: nat ::
      s.Owner(l) == Some(t) <==> t < |s.workers| && s.workers[t].Holds(l)
  }

  /** Every thread counted so far is finished, was found alive, or had not been started. */
  ghost predicate CountAgrees(s: State, r: Request) {
    match r
    case Starting(a, b, _) => a < |s.workers| && b < |s.workers|
    case Interrupting(todo) => forall t :: t in todo ==> t < |s.workers|
    case Counting(snapshot, i, alive, unstarted) =>
      i <= |snapshot| && (forall t :: t in snapshot ==> t < |s.workers|) && Explained(s, snapshot[..i], alive, unstarted)
    case Responded(snapshot, alive, unstarted) =>
      (forall t :: t in snapshot ==> t < |s.workers|) && Explained(s, snapshot, alive, unstarted)
    case Started => true
  }

  ghost predicate Explained(s: State, counted: seq<nat>, alive: seq<nat>, unstarted: seq<nat>) {
    forall t :: t in counted ==>
      t < |s.workers| && (s.workers[t].phase.Finished? || t in alive || t in unstarted)
  }

  ghost predicate Inv(s: State) {
    && LocksAgree(s)
    && (forall t :: t in s.listed ==> t < |s.workers|)
    && (forall r :: 0 <= r < |s.requests| ==> CountAgrees(s, s.requests[r]))
  }

  /** Threads are only added, and a finished thread stays finished. */
  ghost predicate Grows(s: State, s': State) {
    && |s.workers| <= |s'.workers|
    && forall t :: 0 <= t < |s.workers| && s.workers[t].phase.Finished? ==> s'.workers[t].phase.Finished?
  }

  lemma GrowsStep(s: State, a: Action)
    requires Enabled(s, a)
    ensures Grows(s, Do(s, a))
  {
  }

  lemma LocksAgreeStep(s: State, a: Action)
    requires LocksAgree(s) && Enabled(s, a)
    ensures LocksAgree(Do(s, a))
  {
    var s' := Do(s, a);
    forall l: LockId, t: nat
      ensures s'.Owner(l) == Some(t) <==> t < |s'.workers| && s'.workers[t].Holds(l)
    {
      LockAgreesStep(s, a, l, t);
    }
  }

  lemma LockAgreesStep(s: State, a: Action, l: LockId, t: nat)
    requires LocksAgree(s) && Enabled(s, a)
    ensures Do(s, a).Owner(l) == Some(t) <==> t < |Do(s, a).workers| && Do(s, a).workers[t].Holds(l)
  {
    assert s.Owner(l) == Some(t) <==> t < |s.workers| && s.workers[t].Holds(l);
    if a.ByThread() {
      if t == a.t { OwnLockStep(s, a, l); } else { OtherLockStep(s, a, l, t); }
    }
  }

  lemma OwnLockStep(s: State, a: Action, l: LockId)
    requires LocksAgree(s) && Enabled(s, a) && a.ByThread()
    ensures a.t < |Do(s, a).workers|
    ensures Do(s, a).Owner(l) == Some(a.t) <==> Do(s, a).workers[a.t].Holds(l)
  {
    assert s.Owner(l) == Some(a.t) <==> s.workers[a.t].Holds(l);
  }

  lemma OtherLockStep(s: State, a: Action, l: LockId, t: nat)
    requires LocksAgree(s) && Enabled(s, a) && a.ByThread() && t != a.t
    ensures Do(s, a).Owner(l) == Some(t) <==> t < |Do(s, a).workers| && Do(s, a).workers[t].Holds(l)
  {
    assert s.Owner(l) == Some(t) <==> t < |s.workers| && s.workers[t].Holds(l);
    assert s.Owner(l) == Some(a.t) <==> s.workers[a.t].Holds(l);
  }

  lemma KeepAliveIn(listed: seq<nat>, ws: seq<Worker>)
    ensures forall t :: t in KeepAlive(listed, ws) ==> t in listed
  {
  }

  lemma CountAgreesStays(s: State, s': State, r: Request)
    requires Grows(s, s') && CountAgrees(s, r)
    ensures CountAgrees(s', r)
  {
  }

  lemma InvStep(s: State, a: Action)
    requires Inv(s) && Enabled(s, a)
    ensures Inv(Do(s, a))
  {
    var s' := Do(s, a);
    LocksAgreeStep(s, a);
    GrowsStep(s, a);
    KeepAliveIn(s.listed, s.workers);
    forall r | 0 <= r < |s'.requests|
      ensures CountAgrees(s', s'.requests[r])
    {
      if r < |s.requests| {
        CountAgreesStays(s, s', s.requests[r]);
        if a == Advance(r) {
          AdvancedAgrees(s, r);
        }
      }
    }
  }

  lemma AdvancedAgrees(s: State, r: nat)
    requires Inv(s) && Enabled(s, Advance(r))
    ensures CountAgrees(AdvanceRequest(s, r), AdvanceRequest(s, r).requests[r])
  {
    var s' := AdvanceRequest(s, r);
    assert CountAgrees(s, s.requests[r]);
    match s.requests[r]
    case Starting(a, b, pc) =>
    case Interrupting(todo) =>
      assert todo != [] ==> forall t :: t in todo[1..] ==> t in todo;
    case Counting(snapshot, i, alive, unstarted) =>
      if i < |snapshot| {
        assert snapshot[..i + 1] == snapshot[..i] + [snapshot[i]];
        assert snapshot[i] in snapshot;
      } else {
        assert snapshot[..i] == snapshot;
      }
  }

  /** Every run keeps the invariant, from the empty controller or from any state that has it. */
  lemma {:induction false} InvRun(s: State, run: seq<Action>)
    requires Inv(s) && Valid(s, run)
    ensures Inv(Final(s, run))
    decreases |run|
  {
    if run != [] {
      InvStep(s, run[0]);
      InvRun(Do(s, run[0]), run[1..]);
    }
  }

  /** Mutual exclusion in every reachable state: the owner of a lock is in a phase that holds
      it, no two threads hold the same lock, and a finished thread holds none. */
  lemma MutualExclusion(run: seq<Action>, l: LockId, t: nat, u: nat)
    requires Valid(EMPTY, run)
    requires t < |Final(EMPTY, run).workers| && u < |Final(EMPTY, run).workers|
    ensures var s := Final(EMPTY, run);
            && (s.workers[t].Holds(l) && s.workers[u].Holds(l) ==> t == u)
            && (s.Owner(l) == Some(t) <==> s.workers[t].Holds(l))
            && (s.workers[t].phase.Finished? ==> s.lock1 != Some(t) && s.lock2 != Some(t))
  {
    InvRun(EMPTY, run);
    var s := Final(EMPTY, run);
    assert s.Owner(l) == Some(t) <==> s.workers[t].Holds(l);
    assert s.Owner(l) == Some(u) <==> s.workers[u].Holds(l);
    assert s.Owner(Lock1) == Some(t) <==> s.workers[t].Holds(Lock1);
    assert s.Owner(Lock2) == Some(t) <==> s.workers[t].Holds(Lock2);
  }

  // ----- Liveness once the cancel flag is set -----

  /** How many more steps a thread can take while the flag stays set. */
  function Rank(w: Worker): nat {
    match w.phase
    case New => 7
    case Blocked => 6
    case Entering => 5
    case Waiting => 4
    case Checking => 3
    case HoldingBoth => 2
    case Releasing => 1
    case Finished => 0
  }

  function TotalRank(ws: seq<Worker>): nat {
    if ws == [] then 0 else Rank(ws[0]) + TotalRank(ws[1..])
  }

  lemma {:induction false} TotalRankPut(ws: seq<Worker>, t: nat, w: Worker)
    requires t < |ws|
    ensures TotalRank(ws[t := w]) == TotalRank(ws) - Rank(ws[t]) + Rank(w)
    decreases |ws|
  {
    if t == 0 {
      assert ws[t := w][1..] == ws[1..];
    } else {
      assert ws[t := w][1..] == ws[1..][t - 1 := w];
      TotalRankPut(ws[1..], t - 1, w);
    }
  }

  function ThreadSteps(run: seq<Action>): nat {
    if run == [] then 0 else (if run[0].ByThread() then 1 else 0) + ThreadSteps(run[1..])
  }

  /** With the flag set, a thread step lowers the rank and no request step raises it. */
  lemma RankStep(s: State, a: Action)
    requires s.cancelled && Enabled(s, a) && !a.RequestDeadlock?
    ensures Do(s, a).cancelled
    ensures TotalRank(Do(s, a).workers) + (if a.ByThread() then 1 else 0) <= TotalRank(s.workers)
  {
    if a.ByThread() {
      ThreadRankStep(s, a);
    } else if a.Advance? {
      RequestRankStep(s, a.request);
    }
  }

  lemma ThreadRankStep(s: State, a: Action)
    requires s.cancelled && Enabled(s, a) && a.ByThread()
    ensures TotalRank(Do(s, a).workers) < TotalRank(s.workers)
  {
    var ws, ws' := s.workers, Do(s, a).workers;
    TotalRankPut(ws, a.t, ws'[a.t]);
    assert ws' == ws[a.t := ws'[a.t]];
  }

  lemma RequestRankStep(s: State, r: nat)
    requires Enabled(s, Advance(r))
    ensures TotalRank(Do(s, Advance(r)).workers) <= TotalRank(s.workers)
  {
    var ws := s.workers;
    match s.requests[r]
    case Starting(x, y, pc) =>
      if pc == 2 && x < |ws| { TotalRankPut(ws, x, Launch(ws[x])); }
      if pc >= 3 && y < |ws| { TotalRankPut(ws, y, Launch(ws[y])); }
    case Interrupting(todo) =>
      if todo != [] && todo[0] < |ws| { TotalRankPut(ws, todo[0], Interrupt(ws[todo[0]])); }
    case Counting(_, _, _, _) =>
  }

  /** However threads, clear requests and interrupts interleave, the threads take at most
      `TotalRank` steps as long as no new deadlock request resets the flag. */
  lemma {:induction false} CancelledRunsAreBounded(s: State, run: seq<Action>)
    requires s.cancelled && Valid(s, run) && RequestDeadlock !in run
    ensures Final(s, run).cancelled
    ensures ThreadSteps(run) + TotalRank(Final(s, run).workers) <= TotalRank(s.workers)
    decreases |run|
  {
    if run != [] {
      RankStep(s, run[0]);
      assert RequestDeadlock !in run[1..];
      CancelledRunsAreBounded(Do(s, run[0]), run[1..]);
    }
  }

  /** A step thread `t` can take now, if it has one. */
  function OwnStep(s: State, t: nat): Option<Action>
    requires t < |s.workers|
  {
    match s.workers[t].phase
    case New => None
    case Finished => None
    case Blocked => if s.Owner(s.workers[t].kind.Outer()).None? then Some(TakeOuter(t)) else None
    case Checking => Some(ReadFlag(t))
    case Entering => Some(Enter(t))
    case Waiting => Some(Expire(t))
    case HoldingBoth => Some(ReleaseInner(t))
    case Releasing => Some(ReleaseOuter(t))
  }

  /** The system of threads never gets stuck: while some thread is alive, a thread can step. */
  lemma Progress(s: State, t: nat) returns (a: Action)
    requires Inv(s) && t < |s.workers| && s.workers[t].Alive()
    ensures a.ByThread() && Enabled(s, a)
  {
    if OwnStep(s, t).Some? {
      a := OwnStep(s, t).value;
    } else {
      // blocked: the owner of its outer lock can step
      var l := s.workers[t].kind.Outer();
      var o := s.Owner(l).value;
      assert s.Owner(l) == Some(o) <==> o < |s.workers| && s.workers[o].Holds(l);
      a := OwnStep(s, o).value;
    }
  }

  lemma OwnerIsAlive(s: State, l: LockId)
    requires Inv(s)
    ensures var o := s.Owner(l); o.Some? ==> o.value < |s.workers| && s.workers[o.value].Alive()
  {
    if s.Owner(l).Some? {
      var o := s.Owner(l).value;
      assert s.Owner(l) == Some(o) <==> o < |s.workers| && s.workers[o].Holds(l);
    }
  }

  ghost predicate AtRest(s: State) {
    && (forall t :: 0 <= t < |s.workers| ==> !s.workers[t].Alive())
    && s.lock1.None? && s.lock2.None?
  }

  /** Where no thread can step, every started thread is finished and both locks are free. */
  lemma NoStepMeansAtRest(s: State)
    requires Inv(s)
    ensures AtRest(s) <==> forall a: Action :: a.ByThread() ==> !Enabled(s, a)
  {
    if forall a: Action :: a.ByThread() ==> !Enabled(s, a) {
      forall t | 0 <= t < |s.workers|
        ensures !s.workers[t].Alive()
      {
        if s.workers[t].Alive() { var a := Progress(s, t); }
      }
      OwnerIsAlive(s, Lock1);
      OwnerIsAlive(s, Lock2);
    }
  }

  /** Main liveness theorem.  Once the flag is set and stays set, every interleaving that has run
      until no thread can step has every started thread finished and both locks free, and it has
      taken at most `TotalRank` thread steps. */
  lemma EveryCancelledRunFinishes(s: State, run: seq<Action>)
    requires Inv(s) && s.cancelled && Valid(s, run) && RequestDeadlock !in run
    requires forall a: Action :: a.ByThread() ==> !Enabled(Final(s, run), a)
    ensures AtRest(Final(s, run)) && ThreadSteps(run) <= TotalRank(s.workers)
  {
    InvRun(s, run);
    CancelledRunsAreBounded(s, run);
    NoStepMeansAtRest(Final(s, run));
  }

  /** Its companion: there is such a run, of thread steps alone. */
  lemma {:induction false} CancelledThreadsFinish(s: State) returns (run: seq<Action>)
    requires Inv(s) && s.cancelled
    ensures Valid(s, run) && (forall a :: a in run ==> a.ByThread())
    ensures |run| <= TotalRank(s.workers)
    ensures AtRest(Final(s, run))
    decreases TotalRank(s.workers)
  {
    NoStepMeansAtRest(s);
    if AtRest(s) {
      run := [];
    } else {
      var a: Action :| a.ByThread() && Enabled(s, a);
      RankStep(s, a);
      InvStep(s, a);
      var rest := CancelledThreadsFinish(Do(s, a));
      run := [a] + rest;
      assert run[1..] == rest;
    }
  }

  // ----- Deadlock -----

  /** Thread `i` holds lock1 as its outer lock and `j` holds lock2 as its outer lock, and
      neither has seen a cancel or an interrupt. */
  ghost predicate Deadlocked(s: State, i: nat, j: nat) {
    && !s.cancelled
    && i < |s.workers| && s.workers[i].kind.First? && Stuck(s.workers[i])
    && j < |s.workers| && s.workers[j].kind.Second? && Stuck(s.workers[j])
  }

  predicate Stuck(w: Worker) {
    w.phase in {Checking, Entering, Waiting} && !w.interrupted
  }

  /** The actions that end a deadlock: a clear request, or the interrupt of one of the two. */
  predicate Disturbs(s: State, a: Action, i: nat, j: nat) {
    || a.RequestClear?
    || (a.Advance? && a.request < |s.requests| && s.requests[a.request].Interrupting?
        && s.requests[a.request].todo != [] && s.requests[a.request].todo[0] in {i, j})
  }

  predicate Undisturbed(s: State, run: seq<Action>, i: nat, j: nat)
    requires Valid(s, run)
    decreases |run|
  {
    run == [] || (!Disturbs(s, run[0], i, j) && Undisturbed(Do(s, run[0]), run[1..], i, j))
  }

  /** The threads that exist in `s` and finish by `s'` had already finished. */
  ghost predicate NobodyFinishes(s: State, s': State) {
    |s.workers| <= |s'.workers|
    && forall t :: 0 <= t < |s'.workers| && s'.workers[t].phase.Finished? ==>
         t < |s.workers| && s.workers[t].phase.Finished?
  }

  lemma DeadlockStep(s: State, a: Action, i: nat, j: nat)
    requires Inv(s) && Deadlocked(s, i, j) && Enabled(s, a) && !Disturbs(s, a, i, j)
    ensures Deadlocked(Do(s, a), i, j) && NobodyFinishes(s, Do(s, a))
  {
    assert s.workers[i].Holds(Lock1) && s.workers[j].Holds(Lock2);
    assert s.Owner(Lock1) == Some(i) && s.Owner(Lock2) == Some(j);
    if a.ByThread() {
      // nobody else holds a lock, so nobody else is past lock()
      var w := s.workers[a.t];
      assert s.Owner(w.kind.Outer()) == Some(a.t) <==> w.Holds(w.kind.Outer());
      assert s.Owner(w.kind.Inner()) == Some(a.t) <==> w.Holds(w.kind.Inner());
    }
  }

  /** No thread step, new deadlock request or other thread's interrupt breaks a deadlock, and
      while it lasts no thread of either kind finishes. */
  lemma {:induction false} DeadlockPersists(s: State, run: seq<Action>, i: nat, j: nat)
    requires Inv(s) && Deadlocked(s, i, j) && Valid(s, run) && Undisturbed(s, run, i, j)
    ensures Deadlocked(Final(s, run), i, j) && NobodyFinishes(s, Final(s, run))
    decreases |run|
  {
    if run != [] {
      var s' := Do(s, run[0]);
      DeadlockStep(s, run[0], i, j);
      InvStep(s, run[0]);
      DeadlockPersists(s', run[1..], i, j);
    }
  }

  /** The deadlock does arise: one schedule of one fresh pair reaches it. */
  lemma DeadlockArises(s: State, i: nat, j: nat)
    requires !s.cancelled && s.lock1.None? && s.lock2.None?
    requires i < |s.workers| && s.workers[i] == Worker(First, Blocked, false)
    requires j < |s.workers| && s.workers[j] == Worker(Second, Blocked, false)
    ensures Valid(s, [TakeOuter(i), TakeOuter(j)])
    ensures Deadlocked(Final(s, [TakeOuter(i), TakeOuter(j)]), i, j)
  {
    var s1 := Do(s, TakeOuter(i));
    var run: seq<Action> := [TakeOuter(i), TakeOuter(j)];
    assert run[1..] == [TakeOuter(j)] && run[1..][1..] == [];
    assert Valid(Do(s1, TakeOuter(j)), []);
    assert Valid(s1, run[1..]);
    assert Final(s1, run[1..]) == Do(s1, TakeOuter(j));
  }

  // ----- Interrupts -----

  predicate IsStepOf(a: Action, t: nat) {
    a.ByThread() && a.t == t
  }

  function StepsOf(run: seq<Action>, t: nat): nat {
    if run == [] then 0 else (if IsStepOf(run[0], t) then 1 else 0) + StepsOf(run[1..], t)
  }

  /** How many more steps an interrupted thread takes, whatever the flag says. */
  function InterruptedRank(w: Worker): nat {
    match w.phase
    case New => 7
    case Blocked => 6
    case Waiting => 5
    case Checking => 4
    case Entering => 3
    case HoldingBoth => 2
    case Releasing => 1
    case Finished => 0
  }

  ghost predicate Leaving(w: Worker) {
    w.Alive() ==> w.interrupted || w.phase in {HoldingBoth, Releasing}
  }

  lemma LeavingStep(s: State, a: Action, t: nat)
    requires Enabled(s, a) && t < |s.workers| && Leaving(s.workers[t]) && !s.workers[t].phase.New?
    ensures var w' := Do(s, a).workers[t];
            Leaving(w') && !w'.phase.New?
            && InterruptedRank(w') + (if IsStepOf(a, t) then 1 else 0) <= InterruptedRank(s.workers[t])
  {
  }

  /** One interrupt is enough even when a later deadlock request resets the flag: an interrupted
      thread takes at most six more steps of its own, and its next step only ever waits for its
      outer lock. */
  lemma {:induction false} InterruptedThreadLeaves(s: State, run: seq<Action>, t: nat)
    requires Valid(s, run) && t < |s.workers|
    requires s.workers[t].Alive() && s.workers[t].interrupted
    ensures t < |Final(s, run).workers|
    ensures StepsOf(run, t) + InterruptedRank(Final(s, run).workers[t]) <= InterruptedRank(s.workers[t]) <= 6
    ensures var w := Final(s, run).workers[t];
            w.Alive() && !w.phase.Blocked? ==> OwnStep(Final(s, run), t).Some?
  {
    LeavingRun(s, run, t);
  }

  lemma {:induction false} LeavingRun(s: State, run: seq<Action>, t: nat)
    requires Valid(s, run) && t < |s.workers| && Leaving(s.workers[t]) && !s.workers[t].phase.New?
    ensures t < |Final(s, run).workers|
    ensures StepsOf(run, t) + InterruptedRank(Final(s, run).workers[t]) <= InterruptedRank(s.workers[t])
    decreases |run|
  {
    if run != [] {
      LeavingStep(s, run[0], t);
      GrowsStep(s, run[0]);
      LeavingRun(Do(s, run[0]), run[1..], t);
    }
  }
}
