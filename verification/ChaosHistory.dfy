/**
 The locked, crash-atomic chaos history file, as an interleaving step system.

 Any number of calls that record an event or migrate the file run at once.  Each takes the file
 lock, reads with up to three attempts, writes a temporary file, syncs it, replaces the history
 and unlocks.  A call may die or fail at any step; the operating system then frees its lock.
 */
module ChaosHistory {
  import opened Wrappers
  import opened ChaosEvents

  /** What a reader finds under the history's path. */
  datatype File = Missing | Corrupt | NotAList | History(entries: seq<Entry>) {
    /** What every caller makes of it: anything but a list counts as no events. */
    function Contents(): seq<Entry> { if History? then entries else [] }
  }

  datatype Op = Record(entry: Entry) | Migrate(migration: Migration) {
    /** The list to write back, if the call writes at all. */
    function Update(h: seq<Entry>): Option<seq<Entry>> {
      match this
      case Record(e) => Some(h + [e])
      case Migrate(m) => if LegacyCount(h) > 0 then Some(Migrated(m, h)) else None
    }
  }

  const RETRIES: nat := 3

  /** `gaveUp`: every read attempt failed, so the empty default was used. */
  datatype Pc =
    | Idle
    | Locked(failures: nat)
    | Loaded(base: seq<Entry>, gaveUp: bool)
    | Writing(data: seq<Entry>, gaveUp: bool)
    | Synced(data: seq<Entry>, gaveUp: bool)
    | Replaced
    | Returned
    | Raised
    | Dead
  {
    predicate Holding() { Locked? || Loaded? || Writing? || Synced? || Replaced? }
  }

  datatype Call = Call(op: Op, pc: Pc)

  /** A replace that took effect, in order: the call and whether its read had given up. */
  datatype Commit = Commit(call: nat, gaveUp: bool)

  datatype State = State(
    file: File,
    lock: Option<nat>,
    calls: seq<Call>,
    acquired: seq<nat>,      // history variable: lock order
    commits: seq<Commit>)    // history variable: replaces that took effect
  {
    function At(c: nat, pc: Pc): State
      requires c < |calls|
    {
      this.(calls := calls[c := calls[c].(pc := pc)])
    }
  }

  function Initial(f: File): State { State(f, None, [], [], []) }

  datatype Action =
    | Arrive(op: Op)
    | Acquire(c: nat)
    | Read(c: nat)
    | ReadError(c: nat)      // an OSError of one attempt
    | Write(c: nat)
    | Sync(c: nat)
    | Replace(c: nat)
    | Unlock(c: nat)
    | Raise(c: nat)          // an exception before the replace, as opening the lock, decoding the
                             // file or writing can throw: temp file removed, lock freed
    | Die(c: nat)            // the process is killed

  predicate Enabled(s: State, a: Action) {
    a.Arrive? ||
    (a.c < |s.calls| &&
     var call := s.calls[a.c];
     match a
     case Acquire(_) => call.pc.Idle? && s.lock.None?
     case Read(_) => call.pc.Locked?
     case ReadError(_) => call.pc.Locked? && !s.file.Missing?
     case Write(_) => call.pc.Loaded? && call.op.Update(call.pc.base).Some?
     case Sync(_) => call.pc.Writing?
     case Replace(_) => call.pc.Synced?
     case Unlock(_) => call.pc.Replaced? || (call.pc.Loaded? && call.op.Update(call.pc.base).None?)
     case Raise(_) => call.pc.Idle? || (call.pc.Holding() && !call.pc.Replaced?)
     case Die(_) => call.pc.Idle? || call.pc.Holding())
  }

  /** One failed attempt: sleep and retry, or fall back to the empty list. */
  function AfterFailure(failures: nat): Pc {
    if failures + 1 < RETRIES then Locked(failures + 1) else Loaded([], true)
  }

  function Do(s: State, a: Action): State
    requires Enabled(s, a)
  {
    match a
    case Arrive(op) => s.(calls := s.calls + [Call(op, Idle)])
    case Acquire(c) => s.At(c, Locked(0)).(lock := Some(c), acquired := s.acquired + [c])
    case Read(c) =>
      (match s.file
       case Missing => s.At(c, Loaded([], false))
       case Corrupt => s.At(c, AfterFailure(s.calls[c].pc.failures))
       case NotAList => s.At(c, Loaded([], false))
       case History(h) => s.At(c, Loaded(h, false)))
    case ReadError(c) => s.At(c, AfterFailure(s.calls[c].pc.failures))
    case Write(c) =>
      var pc := s.calls[c].pc;
      s.At(c, Writing(s.calls[c].op.Update(pc.base).value, pc.gaveUp))
    case Sync(c) => s.At(c, Synced(s.calls[c].pc.data, s.calls[c].pc.gaveUp))
    case Replace(c) =>
      var pc := s.calls[c].pc;
      s.At(c, Replaced).(file := History(pc.data), commits := s.commits + [Commit(c, pc.gaveUp)])
    case Unlock(c) => s.At(c, Returned).(lock := None)
    case Raise(c) => s.At(c, Raised).(lock := if s.lock == Some(c) then None else s.lock)
    case Die(c) => s.At(c, Dead).(lock := if s.lock == Some(c) then None else s.lock)
  }

  predicate Valid(s: State, run: seq<Action>)
    decreases |run|
  {
    run == [] || (Enabled(s, run[0]) && Valid(Do(s, run[0]), run[1..]))
  }

  function Final(s: State, run: seq<Action>): State
    requires Valid(s, run)
    decreases |run|
  {
    if run == [] then s else Final(Do(s, run[0]), run[1..])
  }

  // ----- The atomic log the file refines -----

  /** One operation applied at once.  A call whose read gave up starts from no events. */
  function Atomically(op: Op, gaveUp: bool, log: seq<Entry>): seq<Entry> {
    op.Update(if gaveUp then [] else log).GetOr(log)
  }

  ghost predicate InRange(calls: seq<Call>, commits: seq<Commit>) {
    forall k :: 0 <= k < |commits| ==> commits[k].call < |calls|
  }

  /** The operations of `commits` applied one after the other. */
  function Replay(log: seq<Entry>, calls: seq<Call>, commits: seq<Commit>): seq<Entry>
    requires InRange(calls, commits)
  {
    if commits == [] then log
    else
      var last := commits[|commits| - 1];
      Atomically(calls[last.call].op, last.gaveUp, Replay(log, calls, commits[..|commits| - 1]))
  }

  predicate IsSubsequence(xs: seq<nat>, ys: seq<nat>) {
    xs == [] || (ys != [] &&
      if xs[|xs| - 1] == ys[|ys| - 1] then IsSubsequence(xs[..|xs| - 1], ys[..|ys| - 1])
      else IsSubsequence(xs, ys[..|ys| - 1]))
  }

  function CallsOf(commits: seq<Commit>): seq<nat> {
    seq(|commits|, k requires 0 <= k < |commits| => commits[k].call)
  }

  /** What call `c` holds follows from the file, which nobody else can change. */
  ghost predicate Faithful(s: State, c: nat)
    requires c < |s.calls|
  {
    var call := s.calls[c];
    match call.pc
    case Loaded(base, gaveUp) => base == if gaveUp then [] else s.file.Contents()
    case Writing(data, gaveUp) => call.op.Update(if gaveUp then [] else s.file.Contents()) == Some(data)
    case Synced(data, gaveUp) => call.op.Update(if gaveUp then [] else s.file.Contents()) == Some(data)
    case _ => true
  }

  predicate Committed(s: State, c: nat) {
    c in CallsOf(s.commits)
  }

  ghost predicate LockAgrees(s: State) {
    && (forall c: nat :: s.lock == Some(c) <==> c < |s.calls| && s.calls[c].pc.Holding())
    && (s.lock.Some? ==> s.acquired != [] && s.acquired[|s.acquired| - 1] == s.lock.value)
  }

  ghost predicate AllFaithful(s: State) {
    forall c: nat :: c < |s.calls| ==> Faithful(s, c)
  }

  /** Which calls have taken effect: each at most once, and every recording that returned. */
  ghost predicate CommitsAgree(s: State) {
    && InRange(s.calls, s.commits)
    && (forall j, k :: 0 <= j < k < |s.commits| ==> s.commits[j].call != s.commits[k].call)
    && (forall k :: 0 <= k < |s.commits| ==> s.calls[s.commits[k].call].pc in {Replaced, Returned, Dead})
    && (forall c: nat :: c < |s.calls| && s.calls[c].op.Record? && s.calls[c].pc in {Replaced, Returned} ==>
          Committed(s, c))
  }

  /** The file is untouched or a complete list, and it is what the atomic log says. */
  ghost predicate Refines(f: File, s: State) {
    && InRange(s.calls, s.commits)
    && (s.file == f || s.file.History?)
    && s.file.Contents() == Replay(f.Contents(), s.calls, s.commits)
  }

  ghost predicate InLockOrder(s: State) {
    && IsSubsequence(CallsOf(s.commits), s.acquired)
    && (s.lock.Some? && s.lock.value < |s.calls| && !s.calls[s.lock.value].pc.Replaced? && s.acquired != [] ==>
          IsSubsequence(CallsOf(s.commits), s.acquired[..|s.acquired| - 1]))
  }

  ghost predicate Inv(f: File, s: State) {
    LockAgrees(s) && AllFaithful(s) && CommitsAgree(s) && Refines(f, s) && InLockOrder(s)
  }

  lemma LockAgreesStep(s: State, a: Action)
    requires LockAgrees(s) && Enabled(s, a)
    ensures LockAgrees(Do(s, a))
  {
    var s' := Do(s, a);
    forall c: nat
      ensures s'.lock == Some(c) <==> c < |s'.calls| && s'.calls[c].pc.Holding()
    {
      assert s.lock == Some(c) <==> c < |s.calls| && s.calls[c].pc.Holding();
      if !a.Arrive? {
        assert s.lock == Some(a.c) <==> a.c < |s.calls| && s.calls[a.c].pc.Holding();
      }
    }
  }

  lemma FaithfulStep(s: State, a: Action)
    requires LockAgrees(s) && AllFaithful(s) && Enabled(s, a)
    ensures AllFaithful(Do(s, a))
  {
    var s' := Do(s, a);
    forall c: nat | c < |s'.calls|
      ensures Faithful(s', c)
    {
      if c < |s.calls| {
        assert Faithful(s, c);
        assert s.lock == Some(c) <==> s.calls[c].pc.Holding();
        if !a.Arrive? {
          assert s.lock == Some(a.c) <==> s.calls[a.c].pc.Holding();
        }
      }
    }
  }

  lemma CommittedStays(s: State, a: Action, c: nat)
    requires Enabled(s, a) && Committed(s, c)
    ensures Committed(Do(s, a), c)
  {
    var k :| 0 <= k < |CallsOf(s.commits)| && CallsOf(s.commits)[k] == c;
    assert CallsOf(Do(s, a).commits)[k] == c;
  }

  lemma ReplacedIsCommitted(s: State, c: nat)
    requires Enabled(s, Replace(c))
    ensures Committed(Do(s, Replace(c)), c)
  {
    var commits := Do(s, Replace(c)).commits;
    assert CallsOf(commits)[|s.commits|] == c;
  }

  /** A call that is not committed yet commits; nobody else's commit changes. */
  lemma CommitsStayDistinct(s: State, a: Action)
    requires LockAgrees(s) && CommitsAgree(s) && Enabled(s, a)
    ensures var s' := Do(s, a);
            && InRange(s'.calls, s'.commits)
            && (forall j, k :: 0 <= j < k < |s'.commits| ==> s'.commits[j].call != s'.commits[k].call)
            && (forall k :: 0 <= k < |s'.commits| ==> s'.calls[s'.commits[k].call].pc in {Replaced, Returned, Dead})
  {
  }

  lemma CommitsAgreeStep(s: State, a: Action)
    requires LockAgrees(s) && CommitsAgree(s) && Enabled(s, a)
    ensures CommitsAgree(Do(s, a))
  {
    var s' := Do(s, a);
    CommitsStayDistinct(s, a);
    forall c: nat | c < |s'.calls| && s'.calls[c].op.Record? && s'.calls[c].pc in {Replaced, Returned}
      ensures Committed(s', c)
    {
      if a == Replace(c) {
        ReplacedIsCommitted(s, c);
      } else {
        CommittedStays(s, a, c);
      }
    }
  }

  lemma {:induction false} ReplayIgnoresProgress(log: seq<Entry>, calls: seq<Call>, calls': seq<Call>, commits: seq<Commit>)
    requires InRange(calls, commits) && |calls| <= |calls'|
    requires forall c :: 0 <= c < |calls| ==> calls'[c].op == calls[c].op
    ensures Replay(log, calls', commits) == Replay(log, calls, commits)
    decreases |commits|
  {
    if commits != [] {
      ReplayIgnoresProgress(log, calls, calls', commits[..|commits| - 1]);
    }
  }

  lemma RefinesStep(f: File, s: State, a: Action)
    requires Inv(f, s) && Enabled(s, a)
    ensures Refines(f, Do(s, a))
  {
    ReplayIgnoresProgress(f.Contents(), s.calls, Do(s, a).calls, s.commits);
    if a.Replace? { ReplaceRefines(f, s, a); }
  }

  /** Replacing the file commits the call: its data is the operation applied to the contents. */
  lemma ReplaceRefines(f: File, s: State, a: Action)
    requires Inv(f, s) && Enabled(s, a) && a.Replace?
    ensures Refines(f, Do(s, a))
  {
    var s' := Do(s, a);
    ReplayIgnoresProgress(f.Contents(), s.calls, s'.calls, s.commits);
    assert Faithful(s, a.c);
    assert s'.commits[..|s.commits|] == s.commits;
  }

  lemma {:induction false} SubsequenceLonger(xs: seq<nat>, ys: seq<nat>, y: nat)
    requires IsSubsequence(xs, ys)
    ensures IsSubsequence(xs, ys + [y])
    decreases |ys|, 1
  {
    assert (ys + [y])[..|ys|] == ys;
    if xs != [] && xs[|xs| - 1] == y {
      SubsequenceShorter(xs, ys);
    }
  }

  lemma {:induction false} SubsequenceShorter(xs: seq<nat>, ys: seq<nat>)
    requires IsSubsequence(xs, ys) && xs != []
    ensures IsSubsequence(xs[..|xs| - 1], ys)
    decreases |ys|, 0
  {
    var front := ys[..|ys| - 1];
    assert ys == front + [ys[|ys| - 1]];
    if xs[|xs| - 1] == ys[|ys| - 1] {
      SubsequenceLonger(xs[..|xs| - 1], front, ys[|ys| - 1]);
    } else {
      SubsequenceShorter(xs, front);
      SubsequenceLonger(xs[..|xs| - 1], front, ys[|ys| - 1]);
    }
  }

  lemma LockOrderStep(s: State, a: Action)
    requires LockAgrees(s) && InLockOrder(s) && Enabled(s, a)
    ensures InLockOrder(Do(s, a))
  {
    var s' := Do(s, a);
    if !a.Arrive? {
      assert s.lock == Some(a.c) <==> s.calls[a.c].pc.Holding();
    }
    if a.Acquire? {
      SubsequenceLonger(CallsOf(s.commits), s.acquired, a.c);
      assert s'.acquired[..|s'.acquired| - 1] == s.acquired;
    } else if a.Replace? {
      assert CallsOf(s'.commits) == CallsOf(s.commits) + [a.c];
      assert CallsOf(s'.commits)[..|s.commits|] == CallsOf(s.commits);
    }
  }

  lemma InvStep(f: File, s: State, a: Action)
    requires Inv(f, s) && Enabled(s, a)
    ensures Inv(f, Do(s, a))
  {
    LockAgreesStep(s, a);
    FaithfulStep(s, a);
    CommitsAgreeStep(s, a);
    RefinesStep(f, s, a);
    LockOrderStep(s, a);
  }

  lemma {:induction false} InvRun(f: File, s: State, run: seq<Action>)
    requires Inv(f, s) && Valid(s, run)
    ensures Inv(f, Final(s, run))
    decreases |run|
  {
    if run != [] {
      InvStep(f, s, run[0]);
      InvRun(f, Do(s, run[0]), run[1..]);
    }
  }

  // ----- Main theorems -----

  /** Every interleaving of recordings and migrations, with a death possible at every step,
      refines the atomic log: the file is untouched or a complete list, its contents are the
      committed operations applied one at a time in lock order, none twice, and every recording
      that returned is among them. */
  lemma RefinesAtomicLog(f: File, run: seq<Action>)
    requires Valid(Initial(f), run)
    ensures var s := Final(Initial(f), run);
            && (s.file == f || s.file.History?)
            && InRange(s.calls, s.commits)
            && s.file.Contents() == Replay(f.Contents(), s.calls, s.commits)
            && IsSubsequence(CallsOf(s.commits), s.acquired)
            && (forall j, k :: 0 <= j < k < |s.commits| ==> s.commits[j].call != s.commits[k].call)
            && (forall c :: 0 <= c < |s.calls| && s.calls[c].op.Record? && s.calls[c].pc.Returned? ==> Committed(s, c))
            && (forall c :: 0 <= c < |s.calls| && s.calls[c].pc.Raised? ==> !Committed(s, c))
  {
    InvRun(f, Initial(f), run);
    InvIsRefinement(f, Final(Initial(f), run));
  }

  lemma InvIsRefinement(f: File, s: State)
    requires Inv(f, s)
    ensures && (s.file == f || s.file.History?)
            && InRange(s.calls, s.commits)
            && s.file.Contents() == Replay(f.Contents(), s.calls, s.commits)
            && IsSubsequence(CallsOf(s.commits), s.acquired)
    ensures forall j, k :: 0 <= j < k < |s.commits| ==> s.commits[j].call != s.commits[k].call
    ensures forall c :: 0 <= c < |s.calls| && s.calls[c].op.Record? && s.calls[c].pc.Returned? ==> Committed(s, c)
    ensures forall c :: 0 <= c < |s.calls| && s.calls[c].pc.Raised? ==> !Committed(s, c)
  {
  }

  /** One lock owner at a time, and it is a live call inside its critical section, so a call
      that died or raised holds nothing. */
  lemma LockIsExclusive(f: File, run: seq<Action>, c: nat, d: nat)
    requires Valid(Initial(f), run)
    requires c < |Final(Initial(f), run).calls| && d < |Final(Initial(f), run).calls|
    ensures var s := Final(Initial(f), run);
            && (s.calls[c].pc.Holding() && s.calls[d].pc.Holding() ==> c == d)
            && (s.lock == Some(c) <==> s.calls[c].pc.Holding())
  {
    InvRun(f, Initial(f), run);
    var s := Final(Initial(f), run);
    assert s.lock == Some(c) <==> c < |s.calls| && s.calls[c].pc.Holding();
    assert s.lock == Some(d) <==> d < |s.calls| && s.calls[d].pc.Holding();
  }

  predicate OnlyRecords(calls: seq<Call>) {
    forall c :: 0 <= c < |calls| ==> calls[c].op.Record?
  }

  /** The events of the commits, in commit order. */
  function Events(calls: seq<Call>, commits: seq<Commit>): seq<Entry>
    requires InRange(calls, commits) && OnlyRecords(calls)
  {
    seq(|commits|, k requires 0 <= k < |commits| => calls[commits[k].call].op.entry)
  }

  /** Commit `k` threw events away: its read gave up although the log was not empty. */
  ghost predicate Erases(log: seq<Entry>, calls: seq<Call>, commits: seq<Commit>, k: nat)
    requires k < |commits| && InRange(calls, commits)
  {
    commits[k].gaveUp && Replay(log, calls, commits[..k]) != []
  }

  lemma {:induction false} ReplaySize(log: seq<Entry>, calls: seq<Call>, commits: seq<Commit>)
    requires InRange(calls, commits) && OnlyRecords(calls)
    ensures |Replay(log, calls, commits)| <= |log| + |commits|
    decreases |commits|
  {
    if commits != [] {
      ReplaySize(log, calls, commits[..|commits| - 1]);
    }
  }

  /** Recording loses nothing exactly when no commit followed three failed reads of a non-empty
      history: then the log is the initial log followed by every committed event, in order. */
  lemma {:induction false} NothingLostIff(log: seq<Entry>, calls: seq<Call>, commits: seq<Commit>)
    requires InRange(calls, commits) && OnlyRecords(calls)
    ensures Replay(log, calls, commits) == log + Events(calls, commits)
       <==> forall k: nat :: k < |commits| ==> !Erases(log, calls, commits, k)
    decreases |commits|
  {
    if commits != [] {
      var n := |commits| - 1;
      var front := commits[..n];
      NothingLostIff(log, calls, front);
      ReplaySize(log, calls, front);
      assert Events(calls, commits) == Events(calls, front) + [calls[commits[n].call].op.entry];
      assert forall k: nat :: k < n ==> commits[..k] == front[..k];
      assert forall k: nat :: k < n ==> (Erases(log, calls, commits, k) <==> Erases(log, calls, front, k));
      assert Replay(log, calls, commits)
          == (if commits[n].gaveUp then [] else Replay(log, calls, front)) + [calls[commits[n].call].op.entry];
      if forall k: nat :: k < |commits| ==> !Erases(log, calls, commits, k) {
        assert !Erases(log, calls, commits, n);
        assert log + Events(calls, commits) == (log + Events(calls, front)) + [calls[commits[n].call].op.entry];
      }
      if Replay(log, calls, commits) == log + Events(calls, commits) {
        assert |Replay(log, calls, commits)| == |log| + |commits|;
        assert !Erases(log, calls, commits, n);
        assert Replay(log, calls, front) == Replay(log, calls, commits)[..|log| + n];
        assert log + Events(calls, front) == (log + Events(calls, commits))[..|log| + n];
      }
    }
  }

  predicate AllReturned(calls: seq<Call>) {
    forall c :: 0 <= c < |calls| ==> calls[c].pc.Returned?
  }

  /** When every recording has returned and none erased events, the file is the initial list
      followed by the event of each call exactly once, in lock order. */
  lemma EveryEventOnce(f: File, run: seq<Action>)
    requires Valid(Initial(f), run)
    requires OnlyRecords(Final(Initial(f), run).calls) && AllReturned(Final(Initial(f), run).calls)
    requires var s := Final(Initial(f), run);
             InRange(s.calls, s.commits)
             && forall k: nat :: k < |s.commits| ==> !Erases(f.Contents(), s.calls, s.commits, k)
    ensures var s := Final(Initial(f), run);
            && s.file.Contents() == f.Contents() + Events(s.calls, s.commits)
            && |s.commits| == |s.calls|
            && multiset(CallsOf(s.commits)) == multiset(seq(|s.calls|, c => c))
            && IsSubsequence(CallsOf(s.commits), s.acquired)
  {
    InvRun(f, Initial(f), run);
    var s := Final(Initial(f), run);
    NothingLostIff(f.Contents(), s.calls, s.commits);
    var order: seq<nat> := CallsOf(s.commits);
    forall c: nat | c < |s.calls|
      ensures c in order
    {
      assert Committed(s, c);
    }
    EachOnce(order, |s.calls|);
  }

  /** A list of distinct numbers below `n` that has them all is a permutation of them. */
  lemma EachOnce(order: seq<nat>, n: nat)
    requires forall j, k :: 0 <= j < k < |order| ==> order[j] != order[k]
    requires forall k :: 0 <= k < |order| ==> order[k] < n
    requires forall c: nat :: c < n ==> c in order
    ensures multiset(order) == multiset(seq(n, c => c)) && |order| == n
  {
    var all: seq<nat> := seq(n, c => c);
    DistinctCounts(order);
    DistinctCounts(all);
    forall c: nat
      ensures multiset(order)[c] == multiset(all)[c]
    {
      assert c in order <==> c < n;
      assert c < n ==> all[c] == c;
      assert c in all <==> c < n;
    }
    assert multiset(order) == multiset(all);
    assert |order| == |multiset(order)| == |multiset(all)| == n;
  }

  lemma {:induction false} DistinctCounts(xs: seq<nat>)
    requires forall j, k :: 0 <= j < k < |xs| ==> xs[j] != xs[k]
    ensures forall x :: multiset(xs)[x] == if x in xs then 1 else 0
    decreases |xs|
  {
    if xs != [] {
      var front := xs[..|xs| - 1];
      assert xs == front + [xs[|xs| - 1]];
      DistinctCounts(front);
    }
  }

  // ----- Readers that take no lock -----

  lemma CommitsGrow(s: State, a: Action)
    requires Enabled(s, a)
    ensures |s.calls| <= |Do(s, a).calls| && s.commits <= Do(s, a).commits
    ensures forall c :: 0 <= c < |s.calls| ==> Do(s, a).calls[c].op == s.calls[c].op
  {
  }

  lemma {:induction false} CommitsGrowOverRun(s: State, run: seq<Action>)
    requires Valid(s, run)
    ensures |s.calls| <= |Final(s, run).calls| && s.commits <= Final(s, run).commits
    ensures forall c :: 0 <= c < |s.calls| ==> Final(s, run).calls[c].op == s.calls[c].op
    decreases |run|
  {
    if run != [] {
      CommitsGrow(s, run[0]);
      CommitsGrowOverRun(Do(s, run[0]), run[1..]);
    }
  }

  lemma {:induction false} ReplayExtends(log: seq<Entry>, calls: seq<Call>, commits: seq<Commit>, i: nat)
    requires InRange(calls, commits) && OnlyRecords(calls) && i <= |commits|
    requires forall k: nat :: i <= k < |commits| ==> !Erases(log, calls, commits, k)
    ensures Replay(log, calls, commits[..i]) <= Replay(log, calls, commits)
    decreases |commits|
  {
    var n := |commits| - 1;
    if i <= n {
      assert !Erases(log, calls, commits, n);
      assert commits[..n][..i] == commits[..i];
      assert forall k: nat :: k < n ==> commits[..n][..k] == commits[..k];
      assert forall k: nat :: i <= k < n ==> (Erases(log, calls, commits[..n], k) <==> Erases(log, calls, commits, k));
      ReplayExtends(log, calls, commits[..n], i);
    } else {
      assert commits[..i] == commits;
    }
  }

  /** While only recordings write and none erases, what an unlocked reader sees is a prefix of
      what every later reader sees. */
  lemma LaterReadsExtend(f: File, before: seq<Action>, after: seq<Action>)
    requires Valid(Initial(f), before) && Valid(Final(Initial(f), before), after)
    requires var s := Final(Final(Initial(f), before), after);
             InRange(s.calls, s.commits) && OnlyRecords(s.calls)
             && forall k: nat :: |Final(Initial(f), before).commits| <= k < |s.commits| ==>
                  !Erases(f.Contents(), s.calls, s.commits, k)
    ensures Final(Initial(f), before).file.Contents() <= Final(Final(Initial(f), before), after).file.Contents()
  {
    var s := Final(Initial(f), before);
    var s' := Final(s, after);
    InvRun(f, Initial(f), before);
    InvRun(f, s, after);
    CommitsGrowOverRun(s, after);
    ReplayIgnoresProgress(f.Contents(), s.calls, s'.calls, s.commits);
    assert s'.commits[..|s.commits|] == s.commits;
    ReplayExtends(f.Contents(), s'.calls, s'.commits, |s.commits|);
  }

  // ----- Nobody waits for ever -----

  predicate Unfinished(c: Call) { c.pc.Idle? || c.pc.Holding() }

  /** The next step of a call that holds the lock. */
  function OwnStep(s: State, c: nat): Action
    requires c < |s.calls|
  {
    match s.calls[c].pc
    case Locked(_) => Read(c)
    case Loaded(base, _) => if s.calls[c].op.Update(base).Some? then Write(c) else Unlock(c)
    case Writing(_, _) => Sync(c)
    case Synced(_, _) => Replace(c)
    case Replaced => Unlock(c)
    case _ => Acquire(c)
  }

  predicate Fails(a: Action) { a.Raise? || a.Die? || a.ReadError? || a.Arrive? }

  /** While a call is unfinished, some call can go on without failing: the lock is free for one that
      waits, or its owner has a next step. */
  lemma SomeCallGoesOn(s: State, c: nat) returns (a: Action)
    requires LockAgrees(s) && c < |s.calls| && Unfinished(s.calls[c])
    ensures Enabled(s, a) && !Fails(a)
  {
    var o := if s.lock.Some? then s.lock.value else c;
    assert s.lock == Some(o) <==> o < |s.calls| && s.calls[o].pc.Holding();
    assert s.lock == Some(c) <==> c < |s.calls| && s.calls[c].pc.Holding();
    a := OwnStep(s, o);
  }

  /** How many more steps a call can take. */
  function Rank(c: Call): nat {
    match c.pc
    case Idle => 9
    case Locked(failures) => if failures < RETRIES then 8 - failures else 5
    case Loaded(_, _) => 4
    case Writing(_, _) => 3
    case Synced(_, _) => 2
    case Replaced => 1
    case Returned => 0
    case Raised => 0
    case Dead => 0
  }

  function TotalRank(calls: seq<Call>): nat {
    if calls == [] then 0 else Rank(calls[0]) + TotalRank(calls[1..])
  }

  lemma {:induction false} TotalRankPut(calls: seq<Call>, c: nat, call: Call)
    requires c < |calls|
    ensures TotalRank(calls[c := call]) == TotalRank(calls) - Rank(calls[c]) + Rank(call)
    decreases |calls|
  {
    if c == 0 {
      assert calls[c := call][1..] == calls[1..];
    } else {
      assert calls[c := call][1..] == calls[1..][c - 1 := call];
      TotalRankPut(calls[1..], c - 1, call);
    }
  }

  lemma RankStep(s: State, a: Action)
    requires Enabled(s, a) && !a.Arrive?
    ensures TotalRank(Do(s, a).calls) < TotalRank(s.calls)
  {
    var call := Do(s, a).calls[a.c];
    assert Do(s, a).calls == s.calls[a.c := call];
    TotalRankPut(s.calls, a.c, call);
  }

  predicate NoArrival(run: seq<Action>) { forall a :: a in run ==> !a.Arrive? }

  lemma {:induction false} RunsAreBounded(s: State, run: seq<Action>)
    requires Valid(s, run) && NoArrival(run)
    ensures |run| + TotalRank(Final(s, run).calls) <= TotalRank(s.calls)
    decreases |run|
  {
    if run != [] {
      assert run[0] in run;
      RankStep(s, run[0]);
      assert forall a :: a in run[1..] ==> a in run;
      RunsAreBounded(Do(s, run[0]), run[1..]);
    }
  }

  /** From every reachable state, without new arrivals: every interleaving, whatever fails or dies, is
      bounded, and where nothing can go on without failing every call has ended. */
  lemma EveryCallEnds(f: File, before: seq<Action>, run: seq<Action>)
    requires Valid(Initial(f), before) && Valid(Final(Initial(f), before), run) && NoArrival(run)
    ensures |run| <= TotalRank(Final(Initial(f), before).calls)
    ensures var s := Final(Final(Initial(f), before), run);
            (forall a :: Enabled(s, a) ==> Fails(a)) ==> forall c | 0 <= c < |s.calls| :: !Unfinished(s.calls[c])
  {
    var s0 := Final(Initial(f), before);
    var s := Final(s0, run);
    InvRun(f, Initial(f), before);
    InvRun(f, s0, run);
    RunsAreBounded(s0, run);
    AllEnded(s);
  }

  lemma AllEnded(s: State)
    requires LockAgrees(s)
    ensures (forall a :: Enabled(s, a) ==> Fails(a)) ==> forall c | 0 <= c < |s.calls| :: !Unfinished(s.calls[c])
  {
    if forall a :: Enabled(s, a) ==> Fails(a) {
      forall c | 0 <= c < |s.calls|
        ensures !Unfinished(s.calls[c])
      {
        if Unfinished(s.calls[c]) { var a := SomeCallGoesOn(s, c); }
      }
    }
  }

  // ----- Migrating again -----

  /** The events that recordings add are unified. */
  predicate RecordsUnified(calls: seq<Call>) {
    forall c | 0 <= c < |calls| :: calls[c].op.Record? ==> calls[c].op.entry.Unified()
  }

  /** A migration is through with the file: it replaces it, or found nothing to do in what it read. */
  predicate PassesOver(s: State, a: Action) {
    Enabled(s, a) && !a.Arrive? && s.calls[a.c].op.Migrate?
    && (a.Replace? || (a.Unlock? && s.calls[a.c].pc.Loaded? && !s.calls[a.c].pc.gaveUp))
  }

  /** Once a migration has passed over the file, no later file needs migrating, however recordings
      and migrations go on, fail or die. */
  lemma MigrationHasNoMore(f: File, before: seq<Action>, a: Action, after: seq<Action>)
    requires Valid(Initial(f), before) && PassesOver(Final(Initial(f), before), a)
    requires Valid(Do(Final(Initial(f), before), a), after)
    requires RecordsUnified(Final(Do(Final(Initial(f), before), a), after).calls)
    ensures LegacyCount(Final(Do(Final(Initial(f), before), a), after).file.Contents()) == 0
  {
    var s := Final(Initial(f), before);
    var s1 := Do(s, a);
    InvRun(f, Initial(f), before);
    PassedOver(f, s, a);
    InvStep(f, s, a);
    NothingLegacyLater(f, s1, after);
  }

  lemma PassedOver(f: File, s: State, a: Action)
    requires Inv(f, s) && PassesOver(s, a)
    ensures LegacyCount(Do(s, a).file.Contents()) == 0
  {
    assert Faithful(s, a.c);
    var m := s.calls[a.c].op.migration;
    if a.Replace? {
      var gaveUp := s.calls[a.c].pc.gaveUp;
      MigrationIsIdempotent(m, m, if gaveUp then [] else s.file.Contents());
    }
  }

  lemma {:induction false} NothingLegacyLater(f: File, s: State, run: seq<Action>)
    requires Inv(f, s) && Valid(s, run) && LegacyCount(s.file.Contents()) == 0
    requires RecordsUnified(Final(s, run).calls)
    ensures LegacyCount(Final(s, run).file.Contents()) == 0
    decreases |run|
  {
    if run != [] {
      var s1 := Do(s, run[0]);
      CommitsGrowOverRun(s1, run[1..]);
      assert RecordsUnified(s1.calls);
      NothingLegacyStep(f, s, run[0]);
      InvStep(f, s, run[0]);
      NothingLegacyLater(f, s1, run[1..]);
    }
  }

  lemma NothingLegacyStep(f: File, s: State, a: Action)
    requires Inv(f, s) && Enabled(s, a) && LegacyCount(s.file.Contents()) == 0
    requires RecordsUnified(Do(s, a).calls)
    ensures LegacyCount(Do(s, a).file.Contents()) == 0
  {
    if a.Replace? {
      assert Faithful(s, a.c);
      var call := s.calls[a.c];
      assert Do(s, a).calls[a.c].op == call.op;
      if call.op.Record? {
        LegacyCountSum(if call.pc.gaveUp then [] else s.file.Contents(), [call.op.entry]);
      }
    }
  }

  lemma {:induction false} LegacyCountSum(h: seq<Entry>, added: seq<Entry>)
    requires forall e :: e in added ==> e.Unified()
    ensures LegacyCount(h + added) == LegacyCount(h)
    decreases |added|
  {
    if added == [] {
      assert h + added == h;
    } else {
      var n := |added| - 1;
      assert (h + added)[..|h| + n] == h + added[..n];
      LegacyCountSum(h, added[..n]);
    }
  }

  /** After its read a recording always writes what it read and its own event; a migration writes
      exactly if it read a legacy entry, and else unlocks without touching the file. */
  lemma WritesIff(s: State, c: nat)
    requires c < |s.calls| && s.calls[c].pc.Loaded?
    ensures var call := s.calls[c];
            && (Enabled(s, Write(c)) <==> call.op.Record? || exists e :: e in call.pc.base && e.Legacy())
            && (Enabled(s, Unlock(c)) <==> !Enabled(s, Write(c)))
            && (call.op.Record? ==>
                 Do(s, Write(c)).calls[c].pc == Writing(call.pc.base + [call.op.entry], call.pc.gaveUp))
  {
    var base := s.calls[c].pc.base;
    LegacyAreCounted(base);
    if e :| e in base && e.Legacy() {
      var i :| 0 <= i < |base| && base[i] == e;
      assert i in LegacyPlaces(base);
    }
    if LegacyPlaces(base) != {} {
      var i :| i in LegacyPlaces(base);
      assert base[i] in base && base[i].Legacy();
    }
  }
}
