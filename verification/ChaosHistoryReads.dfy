/** How often a call of the history file tries to read before it gives up. */
module ChaosHistoryReads {
  import opened Wrappers
  import opened ChaosEvents
  import opened ChaosHistory

  /** A failed attempt of call `c`: an error of the system, or a file that does not decode. */
  predicate FailsToRead(s: State, a: Action, c: nat) {
    a == ReadError(c) || (a == Read(c) && s.file.Corrupt?)
  }

  function Failures(s: State, run: seq<Action>, c: nat): nat
    requires Valid(s, run)
    decreases |run|
  {
    if run == [] then 0
    else (if FailsToRead(s, run[0], c) then 1 else 0) + Failures(Do(s, run[0]), run[1..], c)
  }

  /** What `n` failed attempts have led to. */
  predicate After(pc: Pc, n: nat) {
    match pc
    case Idle => n == 0
    case Locked(failures) => n == failures < 3
    case Loaded(_, gaveUp) => if gaveUp then n == 3 else n < 3
    case Writing(_, gaveUp) => if gaveUp then n == 3 else n < 3
    case Synced(_, gaveUp) => if gaveUp then n == 3 else n < 3
    case _ => n <= 3
  }

  lemma AttemptStep(s: State, a: Action, c: nat, n: nat)
    requires Enabled(s, a) && c < |s.calls| && After(s.calls[c].pc, n)
    ensures c < |Do(s, a).calls| && After(Do(s, a).calls[c].pc, n + (if FailsToRead(s, a, c) then 1 else 0))
  {
  }

  lemma {:induction false} AttemptsRun(s: State, run: seq<Action>, c: nat, n: nat)
    requires Valid(s, run) && c < |s.calls| && After(s.calls[c].pc, n)
    ensures c < |Final(s, run).calls| && After(Final(s, run).calls[c].pc, n + Failures(s, run, c))
    decreases |run|
  {
    if run != [] {
      AttemptStep(s, run[0], c, n);
      AttemptsRun(Do(s, run[0]), run[1..], c, n + (if FailsToRead(s, run[0], c) then 1 else 0));
    }
  }

  /** Over every run, from the arrival of a call: it goes on without the history exactly after three
      failed attempts, and otherwise with what its last attempt read, after at most two. */
  lemma ThreeAttempts(s: State, run: seq<Action>, c: nat)
    requires Valid(s, run) && c < |s.calls| && s.calls[c].pc.Idle?
    ensures c < |Final(s, run).calls|
    ensures var pc, n := Final(s, run).calls[c].pc, Failures(s, run, c);
            && n <= 3
            && (pc.Locked? ==> n < 3)
            && (pc.Loaded? || pc.Writing? || pc.Synced? ==> (pc.gaveUp <==> n == 3))
  {
    AttemptsRun(s, run, c, 0);
  }

  /** One attempt: a missing file and one that holds no list read as no events at once, a list as it
      is; only a file that does not decode is tried again. */
  lemma OneAttempt(s: State, c: nat)
    requires Enabled(s, Read(c))
    ensures var pc, failures := Do(s, Read(c)).calls[c].pc, s.calls[c].pc.failures;
            && (s.file.Missing? || s.file.NotAList? ==> pc == Loaded([], false))
            && (s.file.History? ==> pc == Loaded(s.file.entries, false))
            && (s.file.Corrupt? ==> pc == if failures >= 2 then Loaded([], true) else Locked(failures + 1))
  {
  }
}
