/**
 What the answer of a `/deadlock/clear` request is worth.

 `deadlock_cleared` is answered by a request that counts no live thread.  A thread that is listed
 and not started yet is not alive either, so the answer depends on the `/deadlock` requests that
 are under way when the clear request arrives.
 */
module ClearRequest {
  import opened Wrappers
  import opened ChaosController

  predicate ReportsCleared(r: Request) { r.Responded? && r.alive == [] }

  /** If request `r` answers `deadlock_cleared`, every thread it counted is finished. */
  ghost predicate Truthful(s: State, r: nat) {
    r < |s.requests| && ReportsCleared(s.requests[r]) ==>
      forall t :: t in s.requests[r].snapshot ==> t < |s.workers| && s.workers[t].phase.Finished?
  }

  /** A clear request that arrives in `s` answers truthfully, however it interleaves with
      everything but a later deadlock request. */
  ghost predicate Trustworthy(s: State) {
    forall run :: AfterClear(s, run) ==> Truthful(Final(Do(s, RequestClear), run), |s.requests|)
  }

  predicate AfterClear(s: State, run: seq<Action>) {
    Valid(Do(s, RequestClear), run) && RequestDeadlock !in run
  }

  predicate IsNew(s: State, t: nat) { t < |s.workers| && s.workers[t].phase.New? }

  /** A deadlock request that has yet to list its second thread. */
  predicate Listing(r: Request) { r.Starting? && r.pc <= 1 }

  /** What makes an answer worthless: a listed thread that is not started, or a deadlock request that
      is about to list one. */
  ghost predicate Racy(s: State) {
    || (exists t :: t in s.listed && IsNew(s, t))
    || (exists q :: 0 <= q < |s.requests| && Listing(s.requests[q]))
  }

  // ----- Without a race the answer is true -----

  /** The clear request `r` has met no unstarted thread, and nobody can list one any more. */
  ghost predicate Calm(s: State, r: nat) {
    && r < |s.requests|
    && !Racy(s)
    && (match s.requests[r]
        case Interrupting(_) => true
        case Counting(snapshot, _, _, unstarted) => unstarted == [] && forall t :: t in snapshot ==> !IsNew(s, t)
        case Responded(_, _, unstarted) => unstarted == []
        case _ => false)
  }

  /** No thread becomes new again, and the list and the listing requests only shrink. */
  ghost predicate NothingNew(s: State, s': State) {
    && (forall t: nat | t < |s.workers| :: IsNew(s', t) ==> IsNew(s, t))
    && (forall t :: t in s'.listed ==> t in s.listed)
    && (forall q | 0 <= q < |s'.requests| :: Listing(s'.requests[q]) ==> q < |s.requests| && Listing(s.requests[q]))
  }

  lemma NothingNewStep(s: State, a: Action)
    requires Enabled(s, a) && !a.RequestDeadlock? && !Racy(s)
    ensures NothingNew(s, Do(s, a))
  {
    DoChanges(s, a);
    ListShrinks(s, a);
    NoOtherLists(s, a, Do(s, a));
  }

  lemma ListShrinks(s: State, a: Action)
    requires Enabled(s, a) && !a.RequestDeadlock? && !Racy(s)
    ensures forall t :: t in Do(s, a).listed ==> t in s.listed
  {
    KeepAliveIn(s.listed, s.workers);
  }

  lemma NoOtherLists(s: State, a: Action, s': State)
    requires Changes(s, a, s') && !a.RequestDeadlock?
    ensures forall q | 0 <= q < |s'.requests| :: Listing(s'.requests[q]) ==> q < |s.requests| && Listing(s.requests[q])
  {
  }

  lemma StaysUnracy(s: State, a: Action)
    requires Inv(s) && Enabled(s, a) && !a.RequestDeadlock? && !Racy(s)
    ensures !Racy(Do(s, a))
  {
    NothingNewStep(s, a);
  }

  lemma CalmStep(s: State, a: Action, r: nat)
    requires Inv(s) && Enabled(s, a) && !a.RequestDeadlock? && Calm(s, r)
    ensures Calm(Do(s, a), r)
  {
    NothingNewStep(s, a);
    StaysUnracy(s, a);
    assert CountAgrees(s, s.requests[r]);
    if a == Advance(r) && s.requests[r].Counting? && s.requests[r].next < |s.requests[r].snapshot| {
      assert s.requests[r].snapshot[s.requests[r].next] in s.requests[r].snapshot;
    }
  }

  lemma {:induction false} CalmRun(s: State, run: seq<Action>, r: nat)
    requires Inv(s) && Valid(s, run) && RequestDeadlock !in run && Calm(s, r)
    ensures Inv(Final(s, run)) && Calm(Final(s, run), r)
    decreases |run|
  {
    if run != [] {
      CalmStep(s, run[0], r);
      InvStep(s, run[0]);
      CalmRun(Do(s, run[0]), run[1..], r);
    }
  }

  lemma CalmIsTruthful(s: State, r: nat)
    requires Inv(s) && Calm(s, r)
    ensures Truthful(s, r)
  {
    assert CountAgrees(s, s.requests[r]);
  }

  lemma UnracyIsTrustworthy(s: State)
    requires Inv(s) && !Racy(s)
    ensures Trustworthy(s)
  {
    var s1 := Do(s, RequestClear);
    StaysUnracy(s, RequestClear);
    InvStep(s, RequestClear);
    forall run | AfterClear(s, run)
      ensures Truthful(Final(s1, run), |s.requests|)
    {
      CalmRun(s1, run, |s.requests|);
      CalmIsTruthful(Final(s1, run), |s.requests|);
    }
  }

  // ----- In a race some schedule answers falsely -----

  /** Threads that run leave requests, the list and unstarted threads alone. */
  lemma {:induction false} ThreadsAlone(s: State, run: seq<Action>, t: nat)
    requires Valid(s, run) && (forall a :: a in run ==> a.ByThread()) && IsNew(s, t)
    ensures var s' := Final(s, run); s'.requests == s.requests && s'.listed == s.listed && IsNew(s', t)
    decreases |run|
  {
    if run != [] {
      assert run[0] in run;
      assert forall a :: a in run[1..] ==> a in run;
      ThreadsAlone(Do(s, run[0]), run[1..], t);
    }
  }

  /** Interrupts of threads that are not alive do nothing. */
  lemma {:induction false} InterruptAll(s: State, r: nat) returns (run: seq<Action>)
    requires AtRest(s) && r < |s.requests| && s.requests[r].Interrupting?
    ensures Valid(s, run) && RequestDeadlock !in run
    ensures Final(s, run) == s.(requests := s.requests[r := Counting(s.listed, 0, [], [])])
    decreases |s.requests[r].todo|
  {
    var s1 := Do(s, Advance(r));
    if s.requests[r].todo == [] {
      run := [Advance(r)];
      assert run[1..] == [];
    } else {
      assert s1.workers == s.workers;
      var rest := InterruptAll(s1, r);
      run := [Advance(r)] + rest;
      assert run[1..] == rest;
      assert s1.requests[r := Counting(s.listed, 0, [], [])] == s.requests[r := Counting(s.listed, 0, [], [])];
    }
  }

  /** Counting threads that are not alive ends in `deadlock_cleared`. */
  lemma {:induction false} CountAll(s: State, r: nat) returns (run: seq<Action>)
    requires AtRest(s) && r < |s.requests| && s.requests[r].Counting? && s.requests[r].alive == []
    requires s.requests[r].next <= |s.requests[r].snapshot|
    ensures Valid(s, run) && RequestDeadlock !in run
    ensures var s' := Final(s, run);
            && r < |s'.requests| && ReportsCleared(s'.requests[r]) && s'.requests[r].snapshot == s.requests[r].snapshot
            && s'.workers == s.workers
    decreases |s.requests[r].snapshot| - s.requests[r].next
  {
    var s1 := Do(s, Advance(r));
    if s.requests[r].next == |s.requests[r].snapshot| {
      run := [Advance(r)];
      assert run[1..] == [];
    } else {
      var rest := CountAll(s1, r);
      run := [Advance(r)] + rest;
      assert run[1..] == rest;
    }
  }

  /** Let every live thread finish first; then the clear request finds none alive, and counts `t`. */
  lemma FalseAnswer(s: State, r: nat, t: nat) returns (run: seq<Action>)
    requires Inv(s) && s.cancelled && r < |s.requests| && s.requests[r].Interrupting?
    requires t in s.listed && IsNew(s, t)
    ensures Valid(s, run) && RequestDeadlock !in run && !Truthful(Final(s, run), r)
    ensures IsNew(Final(s, run), t)
  {
    var finish := CancelledThreadsFinish(s);
    ThreadsAlone(s, finish, t);
    var s2 := Final(s, finish);
    var interrupt := InterruptAll(s2, r);
    var s3 := Final(s2, interrupt);
    var count := CountAll(s3, r);
    RunConcat(s2, interrupt, count);
    RunConcat(s, finish, interrupt + count);
    run := finish + (interrupt + count);
  }

  // ----- Deadlock requests own their threads -----

  /** The threads of a deadlock request that is under way are unstarted up to its position. */
  predicate OwnsNew(s: State, r: Request) {
    r.Starting? ==>
      && r.pc <= 3 && r.first != r.second
      && (r.pc <= 2 ==> IsNew(s, r.first))
      && IsNew(s, r.second)
  }

  predicate Apart(p: Request, q: Request) {
    p.Starting? && q.Starting? ==> {p.first, p.second} !! {q.first, q.second}
  }

  predicate OwnedBy(r: Request, t: nat) {
    r.Starting? && ((t == r.first && r.pc <= 2) || t == r.second)
  }

  ghost predicate Owned(s: State, t: nat) {
    exists q :: 0 <= q < |s.requests| && OwnedBy(s.requests[q], t)
  }

  /** Every unstarted thread belongs to one deadlock request that is under way. */
  ghost predicate Ownership(s: State) {
    && (forall q :: 0 <= q < |s.requests| ==> OwnsNew(s, s.requests[q]))
    && (forall p, q :: 0 <= p < q < |s.requests| ==> Apart(s.requests[p], s.requests[q]))
    && (forall t: nat :: IsNew(s, t) ==> Owned(s, t))
  }

  /** Advancing `r` starts thread `t`. */
  predicate Starts(r: Request, t: nat) {
    r.Starting? && ((r.pc == 2 && t == r.first) || (r.pc >= 3 && t == r.second))
  }

  function Advanced(r: Request): Request
    requires r.Starting?
  {
    if r.pc >= 3 then Started else r.(pc := r.pc + 1)
  }

  predicate StepsTo(r: Request, r': Request) {
    if r.Starting? then r' == Advanced(r) else !r'.Starting?
  }

  /** What a step does to the unstarted threads and to the requests. */
  ghost predicate Changes(s: State, a: Action, s': State) {
    && |s.workers| <= |s'.workers|
    && (forall t: nat | t < |s.workers| :: IsNew(s', t) <==>
          IsNew(s, t) && !(a.Advance? && a.request < |s.requests| && Starts(s.requests[a.request], t)))
    && |s.requests| <= |s'.requests|
    && (forall q: nat | q < |s.requests| ::
          if a == Advance(q) then StepsTo(s.requests[q], s'.requests[q]) else s'.requests[q] == s.requests[q])
    && (if a.RequestDeadlock? then Creates(s, s') else Adds(s, s'))
  }

  predicate Creates(s: State, s': State) {
    var n := |s.workers|;
    && |s'.workers| == n + 2 && IsNew(s', n) && IsNew(s', n + 1)
    && s'.requests == s.requests + [Starting(n, n + 1, 0)]
  }

  predicate Adds(s: State, s': State) {
    && |s'.workers| == |s.workers|
    && forall q | |s.requests| <= q < |s'.requests| :: !s'.requests[q].Starting?
  }

  lemma DoChanges(s: State, a: Action)
    requires Enabled(s, a)
    ensures Changes(s, a, Do(s, a))
  {
    ThreadsChange(s, a);
    RequestsChange(s, a);
  }

  lemma ThreadsChange(s: State, a: Action)
    requires Enabled(s, a)
    ensures |s.workers| <= |Do(s, a).workers|
    ensures forall t: nat | t < |s.workers| :: IsNew(Do(s, a), t) <==>
              IsNew(s, t) && !(a.Advance? && a.request < |s.requests| && Starts(s.requests[a.request], t))
  {
  }

  lemma RequestsChange(s: State, a: Action)
    requires Enabled(s, a)
    ensures |s.requests| <= |Do(s, a).requests|
    ensures forall q: nat | q < |s.requests| ::
              if a == Advance(q) then StepsTo(s.requests[q], Do(s, a).requests[q]) else Do(s, a).requests[q] == s.requests[q]
    ensures if a.RequestDeadlock? then Creates(s, Do(s, a)) else Adds(s, Do(s, a))
  {
  }

  ghost predicate InRange(s: State) {
    forall q | 0 <= q < |s.requests| :: s.requests[q].Starting? ==>
      s.requests[q].first < |s.workers| && s.requests[q].second < |s.workers|
  }

  lemma OwnsNewStep(s: State, a: Action, s': State, q: nat)
    requires Ownership(s) && InRange(s) && Changes(s, a, s') && q < |s'.requests|
    ensures OwnsNew(s', s'.requests[q])
  {
    if q < |s.requests| {
      assert OwnsNew(s, s.requests[q]);
      if a.Advance? && a.request < |s.requests| && a.request != q {
        assert Apart(s.requests[if q < a.request then q else a.request], s.requests[if q < a.request then a.request else q]);
      }
    }
  }

  lemma ApartStep(s: State, a: Action, s': State, p: nat, q: nat)
    requires Ownership(s) && InRange(s) && Changes(s, a, s') && p < q < |s'.requests|
    ensures Apart(s'.requests[p], s'.requests[q])
  {
    if q < |s.requests| {
      assert Apart(s.requests[p], s.requests[q]);
    }
  }

  lemma OwnedStep(s: State, a: Action, s': State, t: nat)
    requires Ownership(s) && Changes(s, a, s') && IsNew(s', t)
    ensures Owned(s', t)
  {
    if t < |s.workers| {
      assert IsNew(s, t) && Owned(s, t);
      var q :| 0 <= q < |s.requests| && OwnedBy(s.requests[q], t);
      assert OwnsNew(s, s.requests[q]);
      assert OwnedBy(s'.requests[q], t);
    } else {
      assert OwnedBy(s'.requests[|s.requests|], t);
    }
  }

  lemma OwnershipStep(s: State, a: Action)
    requires Ownership(s) && Inv(s) && Enabled(s, a)
    ensures Ownership(Do(s, a))
  {
    DoChanges(s, a);
    RequestsInRange(s);
    ChangesKeepOwnership(s, a, Do(s, a));
  }

  lemma RequestsInRange(s: State)
    requires Inv(s)
    ensures InRange(s)
  {
    forall q | 0 <= q < |s.requests| && s.requests[q].Starting?
      ensures s.requests[q].first < |s.workers| && s.requests[q].second < |s.workers|
    {
      assert CountAgrees(s, s.requests[q]);
    }
  }

  lemma ChangesKeepOwnership(s: State, a: Action, s': State)
    requires Ownership(s) && InRange(s) && Changes(s, a, s')
    ensures Ownership(s')
  {
    forall q | 0 <= q < |s'.requests|
      ensures OwnsNew(s', s'.requests[q])
    {
      OwnsNewStep(s, a, s', q);
    }
    forall p, q | 0 <= p < q < |s'.requests|
      ensures Apart(s'.requests[p], s'.requests[q])
    {
      ApartStep(s, a, s', p, q);
    }
    forall t: nat | IsNew(s', t)
      ensures Owned(s', t)
    {
      OwnedStep(s, a, s', t);
    }
  }

  lemma {:induction false} OwnershipRun(s: State, run: seq<Action>)
    requires Ownership(s) && Inv(s) && Valid(s, run)
    ensures Ownership(Final(s, run)) && Inv(Final(s, run))
    decreases |run|
  {
    if run != [] {
      OwnershipStep(s, run[0]);
      InvStep(s, run[0]);
      OwnershipRun(Do(s, run[0]), run[1..]);
    }
  }

  /** A deadlock request that is still listing lists its second thread before starting it. */
  lemma {:induction false} ListSecond(s: State, q: nat) returns (run: seq<Action>)
    requires q < |s.requests| && Listing(s.requests[q]) && OwnsNew(s, s.requests[q])
    ensures Valid(s, run) && RequestDeadlock !in run
    ensures var s' := Final(s, run); var t := s.requests[q].second;
            && s'.cancelled == s.cancelled && |s'.requests| == |s.requests|
            && (forall p :: 0 <= p < |s.requests| && p != q ==> s'.requests[p] == s.requests[p])
            && t in s'.listed && IsNew(s', t)
    decreases 1 - s.requests[q].pc
  {
    var s1 := Do(s, Advance(q));
    if s.requests[q].pc == 1 {
      assert s1.listed[|s.listed|] == s.requests[q].second;
      run := [Advance(q)];
      assert run[1..] == [];
    } else {
      var rest := ListSecond(s1, q);
      run := [Advance(q)] + rest;
      assert run[1..] == rest;
    }
  }

  lemma RacyCanLie(s: State) returns (run: seq<Action>)
    requires Inv(s) && Ownership(s) && Racy(s)
    ensures AfterClear(s, run) && !Truthful(Final(Do(s, RequestClear), run), |s.requests|)
  {
    var s1, r := Do(s, RequestClear), |s.requests|;
    InvStep(s, RequestClear);
    if t :| t in s.listed && IsNew(s, t) {
      run := FalseAnswer(s1, r, t);
    } else {
      var q :| 0 <= q < |s.requests| && Listing(s.requests[q]);
      assert OwnsNew(s1, s1.requests[q]);
      var listing := ListSecond(s1, q);
      InvRun(s1, listing);
      var answer := FalseAnswer(Final(s1, listing), r, s.requests[q].second);
      RunConcat(s1, listing, answer);
      run := listing + answer;
    }
  }

  // ----- Main theorems -----

  /** In every reachable state: a clear request that arrives now answers truthfully, whatever happens
      short of a later deadlock request, exactly when no listed thread is unstarted and no deadlock
      request has yet to list its threads. */
  lemma ClearIsTrustworthyIff(before: seq<Action>)
    requires Valid(EMPTY, before)
    ensures Trustworthy(Final(EMPTY, before)) <==> !Racy(Final(EMPTY, before))
  {
    var s := Final(EMPTY, before);
    OwnershipRun(EMPTY, before);
    if Racy(s) {
      var run := RacyCanLie(s);
    } else {
      UnracyIsTrustworthy(s);
    }
  }

  lemma {:induction false} FinishedStays(s: State, run: seq<Action>, t: nat)
    requires Valid(s, run) && t < |s.workers| && s.workers[t].phase.Finished?
    ensures t < |Final(s, run).workers| && Final(s, run).workers[t].phase.Finished?
    decreases |run|
  {
    if run != [] {
      GrowsStep(s, run[0]);
      FinishedStays(Do(s, run[0]), run[1..], t);
    }
  }

  /** The guard a caller can keep: if no deadlock request is under way when a clear request arrives,
      and none arrives until it answers `deadlock_cleared`, then every thread it counted is
      finished, and stays so whatever comes later. */
  lemma QuietClearIsTrue(before: seq<Action>, run: seq<Action>, later: seq<Action>)
    requires Valid(EMPTY, before) && AfterClear(Final(EMPTY, before), run)
    requires Valid(Final(Do(Final(EMPTY, before), RequestClear), run), later)
    requires forall q :: 0 <= q < |Final(EMPTY, before).requests| ==> !Final(EMPTY, before).requests[q].Starting?
    ensures var s := Final(EMPTY, before); var answered := Final(Do(s, RequestClear), run);
            var r := |s.requests|; var end := Final(answered, later);
            && r < |answered.requests|
            && (ReportsCleared(answered.requests[r]) ==>
                 forall t :: t in answered.requests[r].snapshot ==> t < |end.workers| && end.workers[t].phase.Finished?)
  {
    var s := Final(EMPTY, before);
    var answered := Final(Do(s, RequestClear), run);
    OwnershipRun(EMPTY, before);
    assert forall t: nat :: IsNew(s, t) ==> Owned(s, t);
    UnracyIsTrustworthy(s);
    assert Truthful(answered, |s.requests|);
    RequestsStay(Do(s, RequestClear), run);
    if ReportsCleared(answered.requests[|s.requests|]) {
      forall t | t in answered.requests[|s.requests|].snapshot
        ensures t < |Final(answered, later).workers| && Final(answered, later).workers[t].phase.Finished?
      {
        FinishedStays(answered, later, t);
      }
    }
  }

  lemma {:induction false} RequestsStay(s: State, run: seq<Action>)
    requires Valid(s, run)
    ensures |s.requests| <= |Final(s, run).requests|
    decreases |run|
  {
    if run != [] { RequestsStay(Do(s, run[0]), run[1..]); }
  }

  /** The race is real: after one deadlock request, before it lists its threads, a clear request can
      answer `deadlock_cleared` for threads that have not even started. */
  lemma ClearedTooEarly() returns (run: seq<Action>)
    ensures Valid(EMPTY, [RequestDeadlock]) && AfterClear(Final(EMPTY, [RequestDeadlock]), run)
    ensures !Truthful(Final(Do(Final(EMPTY, [RequestDeadlock]), RequestClear), run), 1)
  {
    var first: seq<Action> := [RequestDeadlock];
    assert first[1..] == [];
    OwnershipRun(EMPTY, first);
    var s := Final(EMPTY, first);
    assert Listing(s.requests[0]);
    run := RacyCanLie(s);
  }
}
