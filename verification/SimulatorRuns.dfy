/**
 What a run of the simulator's scheduler has done by any tick: which scenarios it has launched, which
 restorations have fired, and which containers are down.
 */
module SimulatorRuns {
  import opened Steps
  import opened Simulator

  // ----- What has happened by a tick -----

  predicate Sorted(timeline: seq<Entry>) {
    forall i, j | 0 <= i < j < |timeline| :: timeline[i].offset <= timeline[j].offset
  }

  /** How many entries a sorted timeline has up to a time. */
  function LaunchedBy(timeline: seq<Entry>, t: int): (n: nat)
    ensures n <= |timeline|
  {
    if timeline == [] || Start(timeline[0]) > t then 0 else 1 + LaunchedBy(timeline[1..], t)
  }

  lemma {:induction false} LaunchedPrefix(timeline: seq<Entry>, t: int)
    ensures var n := LaunchedBy(timeline, t);
            && (forall i | 0 <= i < n :: Start(timeline[i]) <= t)
            && (n < |timeline| ==> Start(timeline[n]) > t)
  {
    if timeline != [] && Start(timeline[0]) <= t {
      LaunchedPrefix(timeline[1..], t);
      assert forall i | 0 < i < |timeline| :: timeline[i] == timeline[1..][i - 1];
    }
  }

  /** In a sorted timeline those are exactly the entries whose start has come. */
  lemma LaunchedIff(timeline: seq<Entry>, t: int, i: nat)
    requires Sorted(timeline) && i < |timeline|
    ensures i < LaunchedBy(timeline, t) <==> Start(timeline[i]) <= t
  {
    LaunchedPrefix(timeline, t);
  }

  /** All restorations that a list of entries schedules. */
  function Scheduled(entries: seq<Entry>): seq<Restoration> {
    if entries == [] then [] else Scheduled(entries[..|entries| - 1]) + Restores(entries[|entries| - 1])
  }

  /** The log of the first n launches, each at the start of its entry. */
  function LaunchLog(timeline: seq<Entry>, n: nat): seq<Launch>
    requires n <= |timeline|
  {
    if n == 0 then [] else LaunchLog(timeline, n - 1) + [Launch(n - 1, Start(timeline[n - 1]))]
  }

  predicate EndsBetween(e: Entry, c: Container, from: int, to: int) {
    exists i | 0 <= i < |Restores(e)| :: Restores(e)[i].target == c && from < Restores(e)[i].end <= to
  }

  predicate RestoredBetween(timeline: seq<Entry>, c: Container, from: int, to: int) {
    exists j | 0 <= j < |timeline| :: EndsBetween(timeline[j], c, from, to)
  }

  /** One of the first n entries has taken the container down, and no restoration of it has ended
      between then and a later time. */
  predicate Down(timeline: seq<Entry>, n: nat, c: Container, to: int)
    requires n <= |timeline|
  {
    exists i | 0 <= i < n :: c in Downs(timeline[i]) && !RestoredBetween(timeline, c, Start(timeline[i]), to)
  }

  function Unstamped(rs: seq<Restored>): seq<Restoration> {
    if rs == [] then [] else Unstamped(rs[..|rs| - 1]) + [rs[|rs| - 1].what]
  }

  predicate OnTime(restored: seq<Restored>) {
    forall i | 0 <= i < |restored| :: restored[i].time == restored[i].what.end
  }

  /** The state once n entries are launched and everything due at a time is restored. */
  predicate Reached(s: Sim, timeline: seq<Entry>, n: nat, to: int)
    requires n <= |timeline|
  {
    var all := Scheduled(timeline[..n]);
    && s.next == n
    && s.launches == LaunchLog(timeline, n)
    && s.restorations == NotDue(all, to)
    && multiset(Unstamped(s.restored)) + multiset(s.restorations) == multiset(all)
    && OnTime(s.restored)
    && (forall c :: c in s.down <==> Down(timeline, n, c, to))
  }

  // ----- Launching -----

  lemma NextScheduled(timeline: seq<Entry>, n: nat)
    requires n < |timeline|
    ensures Scheduled(timeline[..n + 1]) == Scheduled(timeline[..n]) + Restores(timeline[n])
  {
    assert timeline[..n + 1][..n] == timeline[..n];
  }

  lemma {:induction false} NotDueLater(a: seq<Restoration>, b: seq<Restoration>, t: int)
    requires forall i | 0 <= i < |b| :: b[i].end > t
    ensures NotDue(a + b, t) == NotDue(a, t) + b
    decreases |b|
  {
    if b == [] {
      assert a + b == a;
    } else {
      var front := b[..|b| - 1];
      NotDueLater(a, front, t);
      assert (a + b)[..|a + b| - 1] == a + front;
      assert b == front + [b[|b| - 1]];
    }
  }

  lemma LaunchedDown(timeline: seq<Entry>, n: nat, c: Container, to: int)
    requires n < |timeline| && to < Start(timeline[n])
    ensures Down(timeline, n + 1, c, to) <==> Down(timeline, n, c, to) || c in Downs(timeline[n])
  {
    assert !RestoredBetween(timeline, c, Start(timeline[n]), to);
  }

  lemma LaunchOneReaches(s: Sim, timeline: seq<Entry>, n: nat, t: int)
    requires n < |timeline| && Start(timeline[n]) == t && Reached(s, timeline, n, t - TICK)
    ensures Reached(LaunchOne(s, timeline[n], t), timeline, n + 1, t - TICK)
  {
    var e, s' := timeline[n], LaunchOne(s, timeline[n], t);
    LaunchOneDown(s, timeline, n, t);
    LaunchOneSchedules(timeline, n, t, s.restorations, multiset(Unstamped(s.restored)));
  }

  lemma LaunchOneSchedules(timeline: seq<Entry>, n: nat, t: int, rs: seq<Restoration>, done: multiset<Restoration>)
    requires n < |timeline| && Start(timeline[n]) == t
    requires rs == NotDue(Scheduled(timeline[..n]), t - TICK) && done + multiset(rs) == multiset(Scheduled(timeline[..n]))
    ensures rs + Restores(timeline[n]) == NotDue(Scheduled(timeline[..n + 1]), t - TICK)
    ensures done + multiset(rs + Restores(timeline[n])) == multiset(Scheduled(timeline[..n + 1]))
  {
    var all, more := Scheduled(timeline[..n]), Restores(timeline[n]);
    NextScheduled(timeline, n);
    RestoresLater(timeline[n]);
    NotDueLater(all, more, t - TICK);
    StillConserved(done, rs, all, more);
  }

  lemma RestoresLater(e: Entry)
    ensures forall i | 0 <= i < |Restores(e)| :: Restores(e)[i].end > Start(e)
  {
  }

  lemma StillConserved(done: multiset<Restoration>, rs: seq<Restoration>, all: seq<Restoration>, more: seq<Restoration>)
    requires done + multiset(rs) == multiset(all)
    ensures done + multiset(rs + more) == multiset(all + more)
  {
    assert multiset(rs + more) == multiset(rs) + multiset(more);
    assert multiset(all + more) == multiset(all) + multiset(more);
  }

  lemma LaunchOneDown(s: Sim, timeline: seq<Entry>, n: nat, t: int)
    requires n < |timeline| && Start(timeline[n]) == t
    requires forall c :: c in s.down <==> Down(timeline, n, c, t - TICK)
    ensures forall c :: c in LaunchOne(s, timeline[n], t).down <==> Down(timeline, n + 1, c, t - TICK)
  {
    forall c
      ensures c in s.down + Downs(timeline[n]) <==> Down(timeline, n + 1, c, t - TICK)
    {
      LaunchedDown(timeline, n, c, t - TICK);
    }
  }

  predicate NextIsDue(s: Sim, timeline: seq<Entry>, t: int) {
    s.next < |timeline| && t >= Start(timeline[s.next])
  }

  /** What every launch keeps holds after all that are due, and then none is due. */
  lemma {:induction false} LaunchDueKeeps(p: Sim -> bool, s: Sim, timeline: seq<Entry>, t: int)
    requires p(s)
    requires forall x: Sim | p(x) && NextIsDue(x, timeline, t) :: p(LaunchOne(x, timeline[x.next], t))
    ensures p(LaunchDue(s, timeline, t)) && !NextIsDue(LaunchDue(s, timeline, t), timeline, t)
    decreases |timeline| - s.next
  {
    if NextIsDue(s, timeline, t) {
      LaunchDueKeeps(p, LaunchOne(s, timeline[s.next], t), timeline, t);
    }
  }

  /** In the middle of the launches of the tick at t. */
  predicate Launching(s: Sim, timeline: seq<Entry>, t: int) {
    var n := s.next;
    && n <= |timeline|
    && LaunchedBy(timeline, t - TICK) <= n <= LaunchedBy(timeline, t)
    && Reached(s, timeline, n, t - TICK)
  }

  /** A tick launches the entries that start at its time, since the tick before took the others. */
  lemma LaunchDueReaches(s: Sim, timeline: seq<Entry>, t: int, k: int)
    requires Sorted(timeline) && t == TICK * k && Launching(s, timeline, t)
    ensures Reached(LaunchDue(s, timeline, t), timeline, LaunchedBy(timeline, t), t - TICK)
  {
    var p := (x: Sim) => Launching(x, timeline, t);
    forall x: Sim | p(x) && NextIsDue(x, timeline, t)
      ensures p(LaunchOne(x, timeline[x.next], t))
    {
      LaunchingStep(x, timeline, t, k, LaunchOne(x, timeline[x.next], t));
    }
    LaunchDueKeeps(p, s, timeline, t);
    NoneDueMeansLaunched(LaunchDue(s, timeline, t), timeline, t);
  }

  lemma LaunchingStep(s: Sim, timeline: seq<Entry>, t: int, k: int, s': Sim)
    requires Sorted(timeline) && t == TICK * k && Launching(s, timeline, t) && NextIsDue(s, timeline, t)
    requires s' == LaunchOne(s, timeline[s.next], t)
    ensures Launching(s', timeline, t)
  {
    LaunchNextReaches(s, timeline, s.next, t, k);
  }

  lemma NoneDueMeansLaunched(s: Sim, timeline: seq<Entry>, t: int)
    requires Launching(s, timeline, t) && !NextIsDue(s, timeline, t)
    ensures Reached(s, timeline, LaunchedBy(timeline, t), t - TICK)
  {
    LaunchedExactly(timeline, s.next, t);
  }

  lemma LaunchNextReaches(s: Sim, timeline: seq<Entry>, n: nat, t: int, k: int)
    requires Sorted(timeline) && t == TICK * k && n < |timeline| && t >= Start(timeline[n])
    requires LaunchedBy(timeline, t - TICK) <= n && Reached(s, timeline, n, t - TICK)
    ensures n + 1 <= LaunchedBy(timeline, t) && Reached(LaunchOne(s, timeline[n], t), timeline, n + 1, t - TICK)
  {
    LaunchedIff(timeline, t - TICK, n);
    LaunchedIff(timeline, t, n);
    StartsOnATick(timeline[n], t, k);
    LaunchOneReaches(s, timeline, n, t);
  }

  lemma LaunchedMonotone(timeline: seq<Entry>, from: int, to: int)
    requires from <= to
    ensures LaunchedBy(timeline, from) <= LaunchedBy(timeline, to)
  {
    LaunchedPrefix(timeline, from);
    LaunchedPrefix(timeline, to);
  }

  lemma StartsOnATick(e: Entry, t: int, k: int)
    requires t == TICK * k && t - TICK < Start(e) <= t
    ensures Start(e) == t
  {
  }

  lemma LaunchedExactly(timeline: seq<Entry>, n: nat, t: int)
    requires n <= LaunchedBy(timeline, t)
    requires n < |timeline| ==> Start(timeline[n]) > t
    ensures LaunchedBy(timeline, t) == n
  {
    LaunchedPrefix(timeline, t);
  }

  // ----- Restoring -----

  lemma {:induction false} DueMembers(rs: seq<Restoration>, t: int, r: Restoration)
    ensures r in Due(rs, t) <==> r in rs && r.end <= t
    ensures r in NotDue(rs, t) <==> r in rs && r.end > t
  {
    if rs != [] {
      DueMembers(rs[..|rs| - 1], t, r);
      assert rs == rs[..|rs| - 1] + [rs[|rs| - 1]];
    }
  }

  lemma {:induction false} DueOrNot(rs: seq<Restoration>, t: int)
    ensures multiset(Due(rs, t)) + multiset(NotDue(rs, t)) == multiset(rs)
  {
    if rs != [] {
      DueOrNot(rs[..|rs| - 1], t);
      assert rs == rs[..|rs| - 1] + [rs[|rs| - 1]];
    }
  }

  lemma NotDueOfOneMore(rs: seq<Restoration>, r: Restoration, t: int)
    ensures NotDue(rs + [r], t) == NotDue(rs, t) + (if t < r.end then [r] else [])
  {
    assert (rs + [r])[..|rs|] == rs;
  }

  lemma {:induction false} NotDueTwice(rs: seq<Restoration>, from: int, to: int)
    requires from <= to
    ensures NotDue(NotDue(rs, from), to) == NotDue(rs, to)
  {
    if rs != [] {
      var front, r := rs[..|rs| - 1], rs[|rs| - 1];
      NotDueTwice(front, from, to);
      if r.end > from {
        NotDueOfOneMore(NotDue(front, from), r, to);
      } else {
        assert NotDue(rs, from) == NotDue(front, from) && NotDue(rs, to) == NotDue(front, to);
      }
    }
  }

  lemma {:induction false} ScheduledMembers(entries: seq<Entry>, r: Restoration)
    ensures r in Scheduled(entries) <==> exists j | 0 <= j < |entries| :: r in Restores(entries[j])
  {
    if entries != [] {
      ScheduledMembers(entries[..|entries| - 1], r);
      assert forall j | 0 <= j < |entries| - 1 :: entries[j] == entries[..|entries| - 1][j];
    }
  }

  /** A restoration ends within a minute of its entry's start. */
  lemma EndsBetweenMinutes(e: Entry, r: Restoration)
    requires r in Restores(e)
    ensures Start(e) < r.end < Start(e) + 60
  {
  }

  lemma DueNow(timeline: seq<Entry>, n: nat, t: int, k: int, r: Restoration)
    requires n <= |timeline| && t == TICK * k
    requires r in Due(NotDue(Scheduled(timeline[..n]), t - TICK), t)
    ensures r.end == t && exists j | 0 <= j < n :: r in Restores(timeline[j])
  {
    DueMembers(Scheduled(timeline[..n]), t - TICK, r);
    DueMembers(NotDue(Scheduled(timeline[..n]), t - TICK), t, r);
    ScheduledMembers(timeline[..n], r);
    var j :| 0 <= j < n && r in Restores(timeline[..n][j]);
    EndsOnATick(timeline[..n][j], r, t, k);
    assert r in Restores(timeline[j]);
  }

  lemma EndsOnATick(e: Entry, r: Restoration, t: int, k: int)
    requires r in Restores(e) && t == TICK * k && t - TICK < r.end <= t
    ensures r.end == t
  {
  }

  lemma NothingStartsAtAnEnd(e: Entry, f: Entry, r: Restoration)
    requires r in Restores(f) && Start(e) <= r.end
    ensures Start(e) < r.end
  {
  }

  lemma NotDueNow(timeline: seq<Entry>, n: nat, t: int, j: nat, r: Restoration)
    requires Sorted(timeline) && n == LaunchedBy(timeline, t)
    requires j < |timeline| && r in Restores(timeline[j]) && t - TICK < r.end <= t
    ensures r in Due(NotDue(Scheduled(timeline[..n]), t - TICK), t)
  {
    DueMembers(Scheduled(timeline[..n]), t - TICK, r);
    DueMembers(NotDue(Scheduled(timeline[..n]), t - TICK), t, r);
    ScheduledMembers(timeline[..n], r);
    EndsBetweenMinutes(timeline[j], r);
    LaunchedIff(timeline, t, j);
    assert timeline[..n][j] == timeline[j];
  }

  /** A container is down after the restorations exactly if it was before and none was for it. */
  lemma RestoredDown(timeline: seq<Entry>, n: nat, t: int, k: int, c: Container)
    requires Sorted(timeline) && n == LaunchedBy(timeline, t) && t == TICK * k
    ensures Down(timeline, n, c, t)
            <==> Down(timeline, n, c, t - TICK) && c !in Targets(Due(NotDue(Scheduled(timeline[..n]), t - TICK), t))
  {
    var due := Due(NotDue(Scheduled(timeline[..n]), t - TICK), t);
    TargetsMembers(due, c);
    if c in Targets(due) {
      var i :| 0 <= i < |due| && due[i].target == c;
      DueStopsAll(timeline, n, t, k, due[i]);
    } else {
      forall i | 0 <= i < n
        ensures RestoredBetween(timeline, c, Start(timeline[i]), t) <==> RestoredBetween(timeline, c, Start(timeline[i]), t - TICK)
      {
        NothingDue(timeline, n, t, c, Start(timeline[i]));
      }
    }
  }

  /** A restoration at t ends whatever took its container down: nothing starts on its second. */
  lemma DueStopsAll(timeline: seq<Entry>, n: nat, t: int, k: int, r: Restoration)
    requires n == LaunchedBy(timeline, t) && t == TICK * k && Sorted(timeline)
    requires r in Due(NotDue(Scheduled(timeline[..n]), t - TICK), t)
    ensures !Down(timeline, n, r.target, t)
  {
    DueNow(timeline, n, t, k, r);
    var j :| 0 <= j < n && r in Restores(timeline[j]);
    forall i | 0 <= i < n
      ensures RestoredBetween(timeline, r.target, Start(timeline[i]), t)
    {
      LaunchedIff(timeline, t, i);
      NothingStartsAtAnEnd(timeline[i], timeline[j], r);
      EndsThere(timeline[j], r, Start(timeline[i]), t);
    }
  }

  lemma EndsThere(e: Entry, r: Restoration, from: int, to: int)
    requires r in Restores(e) && from < r.end <= to
    ensures EndsBetween(e, r.target, from, to)
  {
  }

  lemma NothingDue(timeline: seq<Entry>, n: nat, t: int, c: Container, from: int)
    requires Sorted(timeline) && n == LaunchedBy(timeline, t)
    requires c !in Targets(Due(NotDue(Scheduled(timeline[..n]), t - TICK), t))
    ensures RestoredBetween(timeline, c, from, t) <==> RestoredBetween(timeline, c, from, t - TICK)
  {
    forall j | 0 <= j < |timeline|
      ensures EndsBetween(timeline[j], c, from, t) <==> EndsBetween(timeline[j], c, from, t - TICK)
    {
      forall k | 0 <= k < |Restores(timeline[j])| && Restores(timeline[j])[k].target == c
        ensures !(t - TICK < Restores(timeline[j])[k].end <= t)
      {
        if t - TICK < Restores(timeline[j])[k].end <= t {
          NotDueNow(timeline, n, t, j, Restores(timeline[j])[k]);
          TargetsMembers(Due(NotDue(Scheduled(timeline[..n]), t - TICK), t), c);
        }
      }
    }
  }

  lemma ApplyDueReaches(s: Sim, timeline: seq<Entry>, t: int, k: int)
    requires Sorted(timeline) && t == TICK * k
    requires Reached(s, timeline, LaunchedBy(timeline, t), t - TICK)
    ensures Reached(ApplyDue(s, t), timeline, LaunchedBy(timeline, t), t)
  {
    var n := LaunchedBy(timeline, t);
    NotDueTwice(Scheduled(timeline[..n]), t - TICK, t);
    ApplyDueConserves(s.restored, s.restorations, multiset(Scheduled(timeline[..n])), t);
    DueOnTime(s, timeline, n, t, k);
    ApplyDueDown(s, timeline, t, k);
  }

  lemma ApplyDueConserves(restored: seq<Restored>, rs: seq<Restoration>, all: multiset<Restoration>, t: int)
    requires multiset(Unstamped(restored)) + multiset(rs) == all
    ensures multiset(Unstamped(restored + Stamped(Due(rs, t), t))) + multiset(NotDue(rs, t)) == all
  {
    DueOrNot(rs, t);
    UnstampedLater(restored, Due(rs, t), t);
  }

  lemma {:induction false} UnstampedLater(restored: seq<Restored>, due: seq<Restoration>, t: int)
    ensures Unstamped(restored + Stamped(due, t)) == Unstamped(restored) + due
    decreases |due|
  {
    if due == [] {
      assert restored + Stamped(due, t) == restored;
    } else {
      var front, r := due[..|due| - 1], due[|due| - 1];
      UnstampedLater(restored, front, t);
      UnstampedOneMore(restored + Stamped(front, t), Restored(r, t));
      assert restored + Stamped(due, t) == restored + Stamped(front, t) + [Restored(r, t)];
      assert due == front + [r];
    }
  }

  lemma UnstampedOneMore(restored: seq<Restored>, r: Restored)
    ensures Unstamped(restored + [r]) == Unstamped(restored) + [r.what]
  {
    assert (restored + [r])[..|restored|] == restored;
  }

  lemma {:induction false} StampedOnTime(due: seq<Restoration>, t: int)
    requires forall r :: r in due ==> r.end == t
    ensures OnTime(Stamped(due, t))
  {
    if due != [] { StampedOnTime(due[..|due| - 1], t); }
  }

  lemma {:induction false} TargetsMembers(rs: seq<Restoration>, c: Container)
    ensures c in Targets(rs) <==> exists i | 0 <= i < |rs| :: rs[i].target == c
  {
    if rs != [] {
      TargetsMembers(rs[..|rs| - 1], c);
      assert forall i | 0 <= i < |rs| - 1 :: rs[..|rs| - 1][i] == rs[i];
    }
  }

  lemma DueOnTime(s: Sim, timeline: seq<Entry>, n: nat, t: int, k: int)
    requires n <= |timeline| && t == TICK * k
    requires OnTime(s.restored) && s.restorations == NotDue(Scheduled(timeline[..n]), t - TICK)
    ensures OnTime(s.restored + Stamped(Due(s.restorations, t), t))
  {
    var due := Due(s.restorations, t);
    forall r | r in due
      ensures r.end == t
    {
      DueNow(timeline, n, t, k, r);
    }
    StampedOnTime(due, t);
  }

  lemma ApplyDueDown(s: Sim, timeline: seq<Entry>, t: int, k: int)
    requires Sorted(timeline) && t == TICK * k
    requires var n := LaunchedBy(timeline, t);
             && s.restorations == NotDue(Scheduled(timeline[..n]), t - TICK)
             && forall c :: c in s.down <==> Down(timeline, n, c, t - TICK)
    ensures forall c :: c in ApplyDue(s, t).down <==> Down(timeline, LaunchedBy(timeline, t), c, t)
  {
    forall c
      ensures c in s.down - Targets(Due(s.restorations, t)) <==> Down(timeline, LaunchedBy(timeline, t), c, t)
    {
      RestoredDown(timeline, LaunchedBy(timeline, t), t, k, c);
    }
  }

  // ----- Every run -----

  predicate ReachedAfter(s: Sim, timeline: seq<Entry>, k: nat) {
    var t := TickTime(k);
    var n := LaunchedBy(timeline, t);
    Reached(s, timeline, n, t)
  }

  /** After k ticks everything that has started by the last one is launched, and everything that has
      ended by then is restored. */
  lemma EveryTickIsReached(timeline: seq<Entry>, k: nat, s: Sim)
    requires Sorted(timeline) && s == Ticks(FRESH, timeline, k)
    ensures ReachedAfter(s, timeline, k)
  {
    var p := (x: Sim, i: nat) => ReachedAfter(x, timeline, i);
    NothingYet(timeline);
    forall x, i: nat | i < k && p(x, i)
      ensures p(TickStep(timeline)(x, i), i + 1)
    {
      NextTickReaches(x, timeline, i + 1, Tick(x, timeline, TickTime(i + 1)));
    }
    RepeatReaches(p, TickStep(timeline), FRESH, k);
  }

  lemma NextTickReaches(s: Sim, timeline: seq<Entry>, k: nat, s': Sim)
    requires Sorted(timeline) && k > 0 && ReachedAfter(s, timeline, k - 1)
    requires s' == Tick(s, timeline, TickTime(k))
    ensures ReachedAfter(s', timeline, k)
  {
    TickReaches(s, timeline, TickTime(k), TickTime(k - 1), k - 1);
  }

  lemma TickReaches(s: Sim, timeline: seq<Entry>, t: int, before: int, k: int)
    requires Sorted(timeline) && t == TICK * k && before == t - TICK
    requires Reached(s, timeline, LaunchedBy(timeline, before), before)
    ensures Reached(Tick(s, timeline, t), timeline, LaunchedBy(timeline, t), t)
  {
    LaunchedMonotone(timeline, t - TICK, t);
    LaunchDueReaches(s, timeline, t, k);
    ApplyDueReaches(LaunchDue(s, timeline, t), timeline, t, k);
  }

  lemma NothingYet(timeline: seq<Entry>)
    ensures ReachedAfter(FRESH, timeline, 0)
  {
    LaunchedPrefix(timeline, -TICK);
    assert timeline[..0] == [];
    assert FRESH.launches == LaunchLog(timeline, 0);
  }

  // ----- What that means -----

  function After(timeline: seq<Entry>, k: nat): Sim { Ticks(FRESH, timeline, k) }

  lemma {:induction false} LogEntries(timeline: seq<Entry>, n: nat)
    requires n <= |timeline|
    ensures var log := LaunchLog(timeline, n);
            |log| == n && forall i | 0 <= i < n :: log[i] == Launch(i, Start(timeline[i]))
  {
    if n > 0 { LogEntries(timeline, n - 1); }
  }

  /** Every scenario of the window, and no other, is launched once, in order, at the tick of its start. */
  lemma EveryScenarioLaunchesOnce(timeline: seq<Entry>, window: nat)
    requires Sorted(timeline)
    ensures var log := After(timeline, TickCount(window)).launches;
            && |log| <= |timeline|
            && (forall i | 0 <= i < |log| :: log[i] == Launch(i, Start(timeline[i])))
            && (forall i | 0 <= i < |timeline| :: i < |log| <==> timeline[i].offset <= window)
  {
    var k := TickCount(window);
    var s := After(timeline, k);
    EveryTickIsReached(timeline, k, s);
    assert TickTime(k) == 60 * window;
    LogEntries(timeline, s.next);
    forall i | 0 <= i < |timeline|
      ensures i < s.next <==> timeline[i].offset <= window
    {
      LaunchedIff(timeline, 60 * window, i);
    }
  }

  lemma {:induction false} NotDueCounts(rs: seq<Restoration>, t: int, r: Restoration)
    ensures multiset(NotDue(rs, t))[r] == if r.end > t then multiset(rs)[r] else 0
  {
    if rs != [] {
      NotDueCounts(rs[..|rs| - 1], t, r);
      assert rs == rs[..|rs| - 1] + [rs[|rs| - 1]];
    }
  }

  /** After every tick the restorations that have fired are exactly the scheduled ones whose end has
      come, each as often as it was scheduled and at the tick of its end. */
  lemma EveryRestorationFiresOnce(timeline: seq<Entry>, k: nat, r: Restoration)
    requires Sorted(timeline)
    ensures var s := After(timeline, k);
            var scheduled := multiset(Scheduled(timeline[..LaunchedBy(timeline, TickTime(k))]));
            && multiset(Unstamped(s.restored))[r] == (if r.end <= TickTime(k) then scheduled[r] else 0)
            && multiset(s.restorations)[r] == (if r.end > TickTime(k) then scheduled[r] else 0)
            && OnTime(s.restored)
  {
    var s := After(timeline, k);
    EveryTickIsReached(timeline, k, s);
    NotDueCounts(Scheduled(timeline[..LaunchedBy(timeline, TickTime(k))]), TickTime(k), r);
  }

  predicate IsDown(timeline: seq<Entry>, k: nat, c: Container) { c in After(timeline, k).down }

  lemma DownIff(timeline: seq<Entry>, k: nat, c: Container)
    requires Sorted(timeline)
    ensures IsDown(timeline, k, c) <==> Down(timeline, LaunchedBy(timeline, TickTime(k)), c, TickTime(k))
  {
    EveryTickIsReached(timeline, k, After(timeline, k));
  }

  /** A container that is down after a tick has a restoration to come, unless it is payment-service
      after its OOM kill. */
  lemma ExitedHasARestoration(timeline: seq<Entry>, k: nat, c: Container)
    requires Sorted(timeline) && IsDown(timeline, k, c)
    ensures || (exists r :: r in After(timeline, k).restorations && r.target == c && r.end > TickTime(k))
            || (c == PaymentService && exists i | 0 <= i < |timeline| :: timeline[i].scenario.OomKill? && Start(timeline[i]) <= TickTime(k))
  {
    var t := TickTime(k);
    var n := LaunchedBy(timeline, t);
    DownIff(timeline, k, c);
    var i :| 0 <= i < n && c in Downs(timeline[i]) && !RestoredBetween(timeline, c, Start(timeline[i]), t);
    LaunchedIff(timeline, t, i);
    if timeline[i].scenario.Kill? {
      var r := Restoration(Start(timeline[i]) + KILL_SECONDS, c);
      assert r == Restores(timeline[i])[0];
      EndsBy(timeline, i, r, Start(timeline[i]), t);
      EveryTickIsReached(timeline, k, After(timeline, k));
      ScheduledMembers(timeline[..n], r);
      assert timeline[..n][i] == timeline[i];
      DueMembers(Scheduled(timeline[..n]), t, r);
    }
  }

  lemma EndsBy(timeline: seq<Entry>, i: nat, r: Restoration, from: int, to: int)
    requires i < |timeline| && r in Restores(timeline[i]) && from < r.end
    ensures r.end <= to ==> RestoredBetween(timeline, r.target, from, to)
  {
    if r.end <= to { EndsThere(timeline[i], r, from, to); }
  }

  /** Every other container is down exactly during the 35 seconds after a kill: faults of different
      minutes never overlap. */
  lemma OthersAreDownIff(timeline: seq<Entry>, k: nat, c: Container)
    requires Sorted(timeline) && c != PaymentService
    ensures IsDown(timeline, k, c)
            <==> exists i | 0 <= i < |timeline| :: Killed(timeline[i], c, TickTime(k))
  {
    var t := TickTime(k);
    var n := LaunchedBy(timeline, t);
    DownIff(timeline, k, c);
    forall i | 0 <= i < |timeline|
      ensures Killed(timeline[i], c, t)
              <==> i < n && c in Downs(timeline[i]) && !RestoredBetween(timeline, c, Start(timeline[i]), t)
    {
      LaunchedIff(timeline, t, i);
      KilledIff(timeline, i, c, t);
    }
  }

  predicate Killed(e: Entry, c: Container, t: int) {
    e.scenario == Kill(c) && 60 * e.offset <= t < 60 * e.offset + 35
  }

  lemma KilledIff(timeline: seq<Entry>, i: nat, c: Container, t: int)
    requires i < |timeline| && c != PaymentService
    ensures Killed(timeline[i], c, t)
            <==> Start(timeline[i]) <= t && c in Downs(timeline[i]) && !RestoredBetween(timeline, c, Start(timeline[i]), t)
  {
    var e := timeline[i];
    if e.scenario == Kill(c) {
      if t < Start(e) + KILL_SECONDS {
        forall j | 0 <= j < |timeline|
          ensures !EndsBetween(timeline[j], c, Start(e), t)
        {
          NothingEndsWithin(timeline[j], e, c, t);
        }
      } else {
        assert Restoration(Start(e) + KILL_SECONDS, c) == Restores(e)[0];
        EndsThere(e, Restoration(Start(e) + KILL_SECONDS, c), Start(e), t);
      }
    }
  }

  lemma NothingEndsWithin(f: Entry, e: Entry, c: Container, t: int)
    requires t < Start(e) + KILL_SECONDS
    ensures !EndsBetween(f, c, Start(e), t)
  {
  }

  /** No kill or pause targets payment-service. */
  predicate SparesPayment(timeline: seq<Entry>) {
    forall i | 0 <= i < |timeline| :: timeline[i].scenario !in {Kill(PaymentService), Pause(PaymentService)}
  }

  /** In such a timeline payment-service is down from its first OOM kill to the end. */
  lemma PaymentStaysDown(timeline: seq<Entry>, k: nat)
    requires Sorted(timeline) && SparesPayment(timeline)
    ensures IsDown(timeline, k, PaymentService)
            <==> exists i | 0 <= i < |timeline| :: timeline[i].scenario.OomKill? && Start(timeline[i]) <= TickTime(k)
  {
    var t := TickTime(k);
    DownIff(timeline, k, PaymentService);
    forall i | 0 <= i < |timeline|
      ensures i < LaunchedBy(timeline, t) <==> Start(timeline[i]) <= t
      ensures PaymentService in Downs(timeline[i]) <==> timeline[i].scenario.OomKill?
      ensures !RestoredBetween(timeline, PaymentService, Start(timeline[i]), t)
    {
      LaunchedIff(timeline, t, i);
    }
  }

  /** A kill of payment-service in the minute of its OOM kill brings it back: the restoration of the
      kill does not know about the OOM kill. */
  lemma AKillRevivesPayment()
    ensures Sorted([Entry(0, Kill(PaymentService)), Entry(0, OomKill)])
    ensures !IsDown([Entry(0, Kill(PaymentService)), Entry(0, OomKill)], 8, PaymentService)
  {
    var timeline := [Entry(0, Kill(PaymentService)), Entry(0, OomKill)];
    DownIff(timeline, 8, PaymentService);
    var r := Restoration(35, PaymentService);
    assert r == Restores(timeline[0])[0];
    EndsThere(timeline[0], r, 0, 35);
    assert RestoredBetween(timeline, PaymentService, 0, 35);
  }

  // ----- The repository's timeline -----

  const FRESH_WINDOW: nat := 95

  const FIRST_HALF: seq<Entry> := [
    Entry(2, Evidence), Entry(6, Evidence), Entry(10, Evidence), Entry(15, Pause(PostgresDb)), Entry(20, Evidence),
    Entry(25, Kill(AuthService)), Entry(29, Evidence), Entry(34, Evidence), Entry(38, Evidence), Entry(44, Evidence),
    Entry(48, Evidence)]

  const SECOND_HALF: seq<Entry> := [
    Entry(53, Pause(Redis)), Entry(57, Evidence), Entry(61, Evidence), Entry(65, Evidence), Entry(69, Evidence),
    Entry(73, Evidence), Entry(77, Evidence), Entry(81, Evidence), Entry(84, Evidence), Entry(87, OomKill),
    Entry(88, Pause(OtelCollector))]

  const FRESH_TIMELINE: seq<Entry> := FIRST_HALF + SECOND_HALF

  lemma AdjacentIsSorted(timeline: seq<Entry>)
    requires forall i | 0 <= i < |timeline| - 1 :: timeline[i].offset <= timeline[i + 1].offset
    ensures Sorted(timeline)
  {
    forall i, j | 0 <= i < j < |timeline|
      ensures timeline[i].offset <= timeline[j].offset
    {
      OffsetsGrow(timeline, i, j);
    }
  }

  lemma {:induction false} OffsetsGrow(timeline: seq<Entry>, i: nat, j: nat)
    requires forall k | 0 <= k < |timeline| - 1 :: timeline[k].offset <= timeline[k + 1].offset
    requires i <= j < |timeline|
    ensures timeline[i].offset <= timeline[j].offset
    decreases j - i
  {
    if i < j {
      OffsetsGrow(timeline, i, j - 1);
      assert timeline[j - 1].offset <= timeline[j - 1 + 1].offset;
    }
  }

  lemma FirstHalf()
    ensures Sorted(FIRST_HALF) && SparesPayment(FIRST_HALF)
    ensures |FIRST_HALF| == 11 && FIRST_HALF[10].offset == 48
  {
    AdjacentIsSorted(FIRST_HALF);
  }

  lemma SecondHalf()
    ensures Sorted(SECOND_HALF) && SparesPayment(SECOND_HALF) && |SECOND_HALF| == 11
    ensures SECOND_HALF[0].offset == 53 && SECOND_HALF[9] == Entry(87, OomKill) && SECOND_HALF[10].offset == 88
  {
    AdjacentIsSorted(SECOND_HALF);
  }

  lemma SortedConcat(a: seq<Entry>, b: seq<Entry>)
    requires Sorted(a) && Sorted(b) && a != [] && b != [] && a[|a| - 1].offset <= b[0].offset
    ensures Sorted(a + b)
  {
    forall i, j | 0 <= i < j < |a + b|
      ensures (a + b)[i].offset <= (a + b)[j].offset
    {
      if i < |a| <= j {
        assert a[i].offset <= a[|a| - 1].offset && b[0].offset <= b[j - |a|].offset;
      }
    }
  }

  lemma TheTimeline()
    ensures Sorted(FRESH_TIMELINE) && SparesPayment(FRESH_TIMELINE) && |FRESH_TIMELINE| == 22
    ensures FRESH_TIMELINE[20] == Entry(87, OomKill) && FRESH_TIMELINE[21].offset == 88
  {
    FirstHalf();
    SecondHalf();
    JoinHalves(FIRST_HALF, SECOND_HALF);
  }

  lemma JoinHalves(a: seq<Entry>, b: seq<Entry>)
    requires Sorted(a) && SparesPayment(a) && |a| == 11 && a[10].offset == 48
    requires Sorted(b) && SparesPayment(b) && |b| == 11 && b[0].offset == 53
    ensures Sorted(a + b) && SparesPayment(a + b) && (a + b)[20] == b[9] && (a + b)[21] == b[10]
  {
    SortedConcat(a, b);
  }

  /** Once every kill is over, only payment-service can be down. */
  lemma QuietTimeline(timeline: seq<Entry>, k: nat, last: nat, c: Container)
    requires Sorted(timeline) && c != PaymentService && TickTime(k) >= 60 * last + 60
    requires forall i | 0 <= i < |timeline| :: timeline[i].offset <= last
    ensures !IsDown(timeline, k, c)
  {
    OthersAreDownIff(timeline, k, c);
  }

  /** The default simulation launches all 22 scenarios and ends with payment-service alone down. */
  lemma TheDefaultRunEndsInAnOutage()
    ensures var s := After(FRESH_TIMELINE, TickCount(FRESH_WINDOW));
            |s.launches| == 22 && s.down == {PaymentService}
  {
    TheTimeline();
    EndsInAnOutage(FRESH_TIMELINE);
  }

  lemma AllStartBy(timeline: seq<Entry>, last: nat)
    requires Sorted(timeline) && timeline != [] && timeline[|timeline| - 1].offset == last
    ensures forall i | 0 <= i < |timeline| :: timeline[i].offset <= last
  {
  }

  lemma EndsInAnOutage(timeline: seq<Entry>)
    requires Sorted(timeline) && SparesPayment(timeline) && |timeline| == 22
    requires timeline[20] == Entry(87, OomKill) && timeline[21].offset == 88
    ensures var s := After(timeline, TickCount(FRESH_WINDOW));
            |s.launches| == 22 && s.down == {PaymentService}
  {
    var k := TickCount(FRESH_WINDOW);
    EveryScenarioLaunchesOnce(timeline, FRESH_WINDOW);
    assert timeline[21].offset <= FRESH_WINDOW;
    PaymentStaysDown(timeline, k);
    assert Start(timeline[20]) <= TickTime(k);
    var down := After(timeline, k).down;
    forall c
      ensures c in down <==> c == PaymentService
    {
      assert IsDown(timeline, k, c) <==> c in down;
      if c != PaymentService { AllStartBy(timeline, 88); QuietTimeline(timeline, k, 88, c); }
    }
    assert down == {PaymentService};
  }
}
