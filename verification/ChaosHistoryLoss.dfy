/** A run of the history file that loses the whole history. */
module ChaosHistoryLoss {
  import opened Wrappers
  import opened ChaosEvents
  import opened ChaosHistory

  lemma Prepend(s: State, a: Action, s': State, rest: seq<Action>) returns (run: seq<Action>)
    requires Enabled(s, a) && Do(s, a) == s' && Valid(s', rest)
    ensures Valid(s, run) && Final(s, run) == Final(s', rest)
  {
    run := [a] + rest;
    assert run[1..] == rest;
  }

  /** The state of a lone recording of `e` at `pc`. */
  function Alone(f: File, e: Entry, pc: Pc, commits: seq<Commit>): State {
    State(f, if pc.Holding() then Some(0) else None, [Call(Record(e), pc)],
          if pc.Idle? then [] else [0], commits)
  }

  /** Three failed reads erase any history: the recording returns normally and the file holds
      nothing but its event. */
  lemma GivingUpErases(h: seq<Entry>, e: Entry) returns (run: seq<Action>)
    ensures Valid(Initial(History(h)), run)
    ensures var s := Final(Initial(History(h)), run);
            s.file == History([e]) && s.calls == [Call(Record(e), Returned)]
  {
    var f := History(h);
    run := WriteAfterGivingUp(h, e);
    run := Prepend(Alone(f, e, Locked(2), []), ReadError(0), Alone(f, e, Loaded([], true), []), run);
    run := Prepend(Alone(f, e, Locked(1), []), ReadError(0), Alone(f, e, Locked(2), []), run);
    run := Prepend(Alone(f, e, Locked(0), []), ReadError(0), Alone(f, e, Locked(1), []), run);
    run := Prepend(Alone(f, e, Idle, []), Acquire(0), Alone(f, e, Locked(0), []), run);
    run := Prepend(Initial(f), Arrive(Record(e)), Alone(f, e, Idle, []), run);
  }

  lemma WriteAfterGivingUp(h: seq<Entry>, e: Entry) returns (run: seq<Action>)
    ensures Valid(Alone(History(h), e, Loaded([], true), []), run)
    ensures var s := Final(Alone(History(h), e, Loaded([], true), []), run);
            s.file == History([e]) && s.calls == [Call(Record(e), Returned)]
  {
    var f, g := History(h), History([e]);
    run := Prepend(Alone(g, e, Replaced, [Commit(0, true)]), Unlock(0), Alone(g, e, Returned, [Commit(0, true)]), []);
    run := Prepend(Alone(f, e, Synced([e], true), []), Replace(0), Alone(g, e, Replaced, [Commit(0, true)]), run);
    run := Prepend(Alone(f, e, Writing([e], true), []), Sync(0), Alone(f, e, Synced([e], true), []), run);
    var nothing: seq<Entry> := [];
    assert nothing + [e] == [e];
    run := Prepend(Alone(f, e, Loaded([], true), []), Write(0), Alone(f, e, Writing([e], true), []), run);
  }
}
