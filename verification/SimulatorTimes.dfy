/** The simulator's restorations in seconds. */
module SimulatorTimes {
  import opened Simulator
  import opened SimulatorRuns

  /** The end of a kill is 35 seconds after its minute, that of a pause 40 seconds. */
  predicate EndsAt(e: Entry, c: Container, end: int) {
    (e.scenario == Kill(c) && end == 60 * e.offset + 35) || (e.scenario == Pause(c) && end == 60 * e.offset + 40)
  }

  lemma EndsAtIff(e: Entry, r: Restoration)
    ensures r in Restores(e) <==> EndsAt(e, r.target, r.end)
  {
    if EndsAt(e, r.target, r.end) { assert Restores(e)[0] == r; }
  }

  lemma {:induction false} UnstampedMembers(rs: seq<Restored>, r: Restoration)
    ensures multiset(Unstamped(rs))[r] > 0 <==> exists j :: 0 <= j < |rs| && rs[j].what == r
  {
    if rs != [] {
      var n := |rs| - 1;
      UnstampedMembers(rs[..n], r);
      if rs[n].what == r { assert 0 <= n < |rs|; }
      if j :| 0 <= j < |rs| && rs[j].what == r {
        assert j < n ==> rs[..n][j].what == r;
      }
    }
  }

  lemma ScheduledIff(timeline: seq<Entry>, t: int, r: Restoration)
    requires Sorted(timeline) && r.end <= t
    ensures var scheduled := Scheduled(timeline[..LaunchedBy(timeline, t)]);
            r in scheduled <==> exists i :: 0 <= i < |timeline| && EndsAt(timeline[i], r.target, r.end)
  {
    var n := LaunchedBy(timeline, t);
    ScheduledMembers(timeline[..n], r);
    forall i | 0 <= i < |timeline|
      ensures EndsAt(timeline[i], r.target, r.end) ==> i < n
    {
      LaunchedIff(timeline, t, i);
    }
    forall i | 0 <= i < |timeline|
      ensures r in Restores(timeline[i]) <==> EndsAt(timeline[i], r.target, r.end)
    {
      EndsAtIff(timeline[i], r);
    }
    if i :| 0 <= i < |timeline| && EndsAt(timeline[i], r.target, r.end) {
      assert timeline[..n][i] == timeline[i];
    }
  }

  /** The log of restorations after a tick: a container is listed, with the second of its end, exactly
      if a kill 35 or a pause 40 seconds before was aimed at it and that second has come. */
  lemma RestoredInSeconds(timeline: seq<Entry>, k: nat, c: Container, end: int)
    requires Sorted(timeline)
    ensures Restored(Restoration(end, c), end) in After(timeline, k).restored
            <==> end <= TickTime(k) && exists i :: 0 <= i < |timeline| && EndsAt(timeline[i], c, end)
  {
    var r := Restoration(end, c);
    var s := After(timeline, k);
    EveryRestorationFiresOnce(timeline, k, r);
    UnstampedMembers(s.restored, r);
    if end <= TickTime(k) { ScheduledIff(timeline, TickTime(k), r); }
    if j :| 0 <= j < |s.restored| && s.restored[j].what == r {
      assert s.restored[j] == Restored(r, end);
    }
  }
}
