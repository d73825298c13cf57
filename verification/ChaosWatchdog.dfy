/**
 The watchdog pass over the chaos history: recover every stale injected fault and record it.

 What the foreign calls do is an `Outcome` per history entry: whether `recover_fault` raises,
 what it logs itself, and whether the two recordings raise.
 */
module ChaosWatchdog {
  import opened Wrappers
  import opened Sequences
  import opened ChaosEvents

  datatype Outcome = Outcome(recovers: bool, selfLogged: seq<Entry>, recordRaises: bool, failedRecordRaises: bool)

  /** The history file, reached only through `record_chaos_event`. */
  class ChaosLog {
    var entries: seq<Entry>

    constructor (initial: seq<Entry>)
      ensures entries == initial
    {
      entries := initial;
    }

    /** Appends, or raises without writing. */
    method Record(e: Entry, raises: bool) returns (ok: bool)
      modifies this
      ensures ok == !raises
      ensures entries == if raises then old(entries) else old(entries) + [e]
    {
      if !raises {
        entries := entries + [e];
      }
      ok := !raises;
    }
  }

  predicate Stale(e: Entry, now: real, grace: real) {
    && e.Dict?
    && e.status == Some("injected")
    && now >= e.startTs.GetOr(Unreadable).Parse(now) + (e.durationS + grace)
  }

  /** The record of a recovery attempt of entry number `i`. */
  function Closing(e: Entry, now: real, run: nat, i: nat, status: string): Entry
    requires e.Dict?
  {
    Dict(Some(Generated(run, i, 0)), Some(e.scenarioId.GetOr("adhoc")), e.faultName, e.target,
         Some(e.startTs.GetOr(Unreadable)), Some(At(now)), e.durationS, Some(status), None, None, [], 0.0)
  }

  /** What handling entry number `i` adds to the history. */
  function Added(e: Entry, now: real, grace: real, run: nat, i: nat, o: Outcome): seq<Entry> {
    if !Stale(e, now, grace) then []
    else
      (if o.recovers then o.selfLogged else [])
      + (if o.recovers && !o.recordRaises then [Closing(e, now, run, i, "recovered")]
         else if !o.failedRecordRaises then [Closing(e, now, run, i, "failed")]
         else [])
  }

  function AllAdded(h: seq<Entry>, now: real, grace: real, run: nat, outcomes: seq<Outcome>): seq<Entry>
    requires |h| <= |outcomes|
  {
    if h == [] then []
    else var n := |h| - 1;
      AllAdded(h[..n], now, grace, run, outcomes) + Added(h[n], now, grace, run, n, outcomes[n])
  }

  function StaleCount(h: seq<Entry>, now: real, grace: real): nat {
    if h == [] then 0
    else StaleCount(h[..|h| - 1], now, grace) + (if Stale(h[|h| - 1], now, grace) then 1 else 0)
  }

  lemma OneMore(h: seq<Entry>, i: nat, now: real, grace: real, run: nat, outcomes: seq<Outcome>)
    requires i < |h| <= |outcomes|
    ensures AllAdded(h[..i + 1], now, grace, run, outcomes)
         == AllAdded(h[..i], now, grace, run, outcomes) + Added(h[i], now, grace, run, i, outcomes[i])
    ensures StaleCount(h[..i + 1], now, grace)
         == StaleCount(h[..i], now, grace) + (if Stale(h[i], now, grace) then 1 else 0)
  {
    assert h[..i + 1][..i] == h[..i];
  }

  /** Recovers one stale fault and records the outcome; a recording that raises falls through to
      the failure record. */
  method Recover(log: ChaosLog, e: Entry, now: real, run: nat, i: nat, o: Outcome)
    requires e.Dict?
    modifies log
    ensures forall grace :: Stale(e, now, grace) ==>
              log.entries == old(log.entries) + Added(e, now, grace, run, i, o)
  {
    var recorded := false;
    if o.recovers {
      log.entries := log.entries + o.selfLogged;
      recorded := log.Record(Closing(e, now, run, i, "recovered"), o.recordRaises);
    }
    if !recorded {
      recorded := log.Record(Closing(e, now, run, i, "failed"), o.failedRecordRaises);
    }
  }

  method Reconcile(log: ChaosLog, now: real, grace: real, run: nat, outcomes: seq<Outcome>) returns (count: nat)
    requires |log.entries| <= |outcomes|
    modifies log
    ensures count == StaleCount(old(log.entries), now, grace)
    ensures log.entries == old(log.entries) + AllAdded(old(log.entries), now, grace, run, outcomes)
  {
    var history := log.entries;
    count := 0;
    for i := 0 to |history|
      invariant count == StaleCount(history[..i], now, grace)
      invariant log.entries == history + AllAdded(history[..i], now, grace, run, outcomes)
    {
      OneMore(history, i, now, grace, run, outcomes);
      var e := history[i];
      if e.NotADict? || e.status != Some("injected") {
        continue;
      }
      var startDt := e.startTs.GetOr(Unreadable).Parse(now);
      var staleThreshold := startDt + (e.durationS + grace);
      if now >= staleThreshold {
        count := count + 1;
        Recover(log, e, now, run, i, outcomes[i]);
      }
    }
    assert history[..|history|] == history;
  }

  predicate NoneInjected(h: seq<Entry>) {
    forall e :: e in h && e.Dict? ==> e.status != Some("injected")
  }

  /** `recover_fault` only ever logs recoveries. */
  predicate LogsRecoveries(outcomes: seq<Outcome>) {
    forall i :: 0 <= i < |outcomes| ==> NoneInjected(outcomes[i].selfLogged)
  }

  lemma {:induction false} AddedNotInjected(h: seq<Entry>, now: real, grace: real, run: nat, outcomes: seq<Outcome>)
    requires |h| <= |outcomes| && LogsRecoveries(outcomes)
    ensures NoneInjected(AllAdded(h, now, grace, run, outcomes))
    decreases |h|
  {
    if h != [] {
      AddedNotInjected(h[..|h| - 1], now, grace, run, outcomes);
      assert NoneInjected(outcomes[|h| - 1].selfLogged);
    }
  }

  /** A recovery record never makes an entry stale or stops one from being stale. */
  lemma {:induction false} ClosingsDoNotCount(h: seq<Entry>, added: seq<Entry>, now: real, grace: real)
    requires NoneInjected(added)
    ensures StaleCount(h + added, now, grace) == StaleCount(h, now, grace)
    decreases |added|
  {
    if added == [] {
      assert h + added == h;
    } else {
      var n := |added| - 1;
      assert (h + added)[..|h| + n] == h + added[..n];
      assert added[n] in added;
      ClosingsDoNotCount(h, added[..n], now, grace);
    }
  }

  lemma {:induction false} StaleCountGrows(h: seq<Entry>, more: seq<Entry>, now: real, later: real, grace: real)
    requires now <= later
    ensures StaleCount(h, now, grace) <= StaleCount(h + more, later, grace)
    decreases |h| + |more|
  {
    if more != [] {
      var n := |more| - 1;
      assert (h + more)[..|h| + n] == h + more[..n];
      StaleCountGrows(h, more[..n], now, later, grace);
    } else if h != [] {
      assert h + more == h && h[..|h| - 1] + [] == h[..|h| - 1];
      StaleCountGrows(h[..|h| - 1], [], now, later, grace);
    }
  }

  /** The keys of recovered faults are collected but never read: a second pass at the same
      instant recovers exactly as many faults again, and any later pass over a history that only
      grew recovers at least as many. */
  lemma PassesNeverSettle(h: seq<Entry>, now: real, later: real, grace: real, run: nat, outcomes: seq<Outcome>, others: seq<Entry>)
    requires |h| <= |outcomes| && LogsRecoveries(outcomes) && now <= later
    ensures var after := h + AllAdded(h, now, grace, run, outcomes);
            && StaleCount(after, now, grace) == StaleCount(h, now, grace)
            && StaleCount(h, now, grace) <= StaleCount(after + others, later, grace)
  {
    var added := AllAdded(h, now, grace, run, outcomes);
    AddedNotInjected(h, now, grace, run, outcomes);
    ClosingsDoNotCount(h, added, now, grace);
    StaleCountGrows(h, added + others, now, later, grace);
    assert h + added + others == h + (added + others);
  }

  predicate Closes(c: Entry, e: Entry) {
    && c.Dict? && e.Dict?
    && c.faultName == e.faultName && c.target == e.target
    && c.scenarioId == Some(e.scenarioId.GetOr("adhoc"))
    && c.status in {Some("recovered"), Some("failed")}
  }

  /** As long as one of the two recordings can be written, every stale fault gets a record. */
  lemma {:induction false} EveryStaleFaultIsClosed(h: seq<Entry>, now: real, grace: real, run: nat, outcomes: seq<Outcome>, i: nat)
    requires i < |h| <= |outcomes| && Stale(h[i], now, grace)
    requires (outcomes[i].recovers && !outcomes[i].recordRaises) || !outcomes[i].failedRecordRaises
    ensures exists c :: c in AllAdded(h, now, grace, run, outcomes) && Closes(c, h[i])
    decreases |h|
  {
    var n := |h| - 1;
    if i < n {
      EveryStaleFaultIsClosed(h[..n], now, grace, run, outcomes, i);
      assert h[..n][i] == h[i];
      var c :| c in AllAdded(h[..n], now, grace, run, outcomes) && Closes(c, h[..n][i]);
      assert c in AllAdded(h, now, grace, run, outcomes) && Closes(c, h[i]);
    } else {
      var added := Added(h[n], now, grace, run, n, outcomes[n]);
      var c := added[|added| - 1];
      assert c in added && Closes(c, h[i]);
      assert c in AllAdded(h, now, grace, run, outcomes);
    }
  }

  /** The closing record `c` of `e`, with the clock of the pass as its end. */
  predicate Records(c: Entry, e: Entry, now: real, status: string) {
    && c.Dict? && e.Dict? && c.Unified()
    && c.faultName == e.faultName && c.target == e.target && c.durationS == e.durationS
    && c.scenarioId == (if e.scenarioId.Some? then e.scenarioId else Some("adhoc"))
    && (e.startTs.Some? ==> c.startTs == e.startTs) && c.endTs == Some(At(now))
    && c.status == Some(status)
  }

  /** What one entry gets: nothing unless it is stale; what the recovery logged itself; and then one
      record, "recovered" exactly if the recovery and that record went well, and else "failed" if that
      one can be written. */
  ghost predicate ClosedAs(own: seq<Entry>, e: Entry, now: real, grace: real, o: Outcome) {
    if !Stale(e, now, grace) then own == []
    else
      var logged := if o.recovers then o.selfLogged else [];
      if o.recovers && !o.recordRaises then exists c :: own == logged + [c] && Records(c, e, now, "recovered")
      else if o.failedRecordRaises then own == logged
      else exists c :: own == logged + [c] && Records(c, e, now, "failed")
  }

  /** `added` is one piece for every entry, in the order of the entries. */
  ghost predicate ClosedInOrder(h: seq<Entry>, added: seq<Entry>, now: real, grace: real, outcomes: seq<Outcome>)
    requires |h| <= |outcomes|
    decreases |h|
  {
    if h == [] then added == []
    else
      var n := |h| - 1;
      exists k :: 0 <= k <= |added| && ClosedAs(added[k..], h[n], now, grace, outcomes[n])
                  && ClosedInOrder(h[..n], added[..k], now, grace, outcomes)
  }

  lemma AddedCloses(e: Entry, now: real, grace: real, run: nat, i: nat, o: Outcome)
    ensures ClosedAs(Added(e, now, grace, run, i, o), e, now, grace, o)
  {
    if Stale(e, now, grace) {
      var logged := if o.recovers then o.selfLogged else [];
      var good, bad := Closing(e, now, run, i, "recovered"), Closing(e, now, run, i, "failed");
      assert Records(good, e, now, "recovered") && Records(bad, e, now, "failed");
      assert logged + [] == logged;
    }
  }

  /** Everything a pass adds to the history. */
  lemma {:induction false} EveryRecordIsExact(h: seq<Entry>, now: real, grace: real, run: nat, outcomes: seq<Outcome>)
    requires |h| <= |outcomes|
    ensures ClosedInOrder(h, AllAdded(h, now, grace, run, outcomes), now, grace, outcomes)
    decreases |h|
  {
    if h != [] {
      var n := |h| - 1;
      var before, own := AllAdded(h[..n], now, grace, run, outcomes), Added(h[n], now, grace, run, n, outcomes[n]);
      EveryRecordIsExact(h[..n], now, grace, run, outcomes);
      AddedCloses(h[n], now, grace, run, n, outcomes[n]);
      assert (before + own)[|before|..] == own && (before + own)[..|before|] == before;
    }
  }

  /** A fault injected at a known time is stale exactly when its duration and the grace have passed;
      one without a readable start only if both are nothing. */
  lemma StaleInSeconds(e: Entry, now: real, grace: real)
    requires e.Dict? && e.status == Some("injected")
    ensures e.startTs.Some? && e.startTs.value.At? ==>
              (Stale(e, now, grace) <==> now - e.startTs.value.seconds >= e.durationS + grace)
    ensures !(e.startTs.Some? && e.startTs.value.At?) ==> (Stale(e, now, grace) <==> e.durationS + grace <= 0.0)
  {
  }

  function StalePlaces(h: seq<Entry>, now: real, grace: real): set<int> {
    set i | 0 <= i < |h| && Stale(h[i], now, grace)
  }

  /** The count is the number of stale entries. */
  lemma {:induction false} StaleAreCounted(h: seq<Entry>, now: real, grace: real)
    ensures StaleCount(h, now, grace) == |StalePlaces(h, now, grace)|
  {
    if h != [] {
      var n := |h| - 1;
      StaleAreCounted(h[..n], now, grace);
      OneMoreIn(StalePlaces(h, now, grace), StalePlaces(h[..n], now, grace), n, Stale(h[n], now, grace));
    }
  }
}
