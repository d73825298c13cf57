/**
 The deduplication window after seeding from stored events, which may repeat.

 A repeat makes the queue longer than the set, so the bounded queue later drops elements by itself
 before the first explicit removal.  How many such drops are left is the slack of the window.
 */
module SeedWindow {
  import opened Sequences
  import opened SeenWindow

  /** Every queued hash is recognised. */
  predicate Contained(w: Window) { Elements(w.queue) <= w.seen }

  ghost predicate AlwaysContained(w: Window, n: nat)
    requires n >= 1 && |w.queue| <= n
  {
    forall hs :: Contained(Run(w, n, hs))
  }

  /** `e` silent drops are left: the queue has e - 1 elements more than the set, or, once the queue is
      only popped, one less. */
  predicate Slack(w: Window, n: nat, e: nat) {
    && Contained(w) && |w.queue| <= n
    && |w.seen| == |w.queue| + 1 - e
    && (e == 0 ==> |w.queue| == n - 1)
  }

  /** No hash is queued twice behind the first e places. */
  predicate Spread(q: seq<Hash>, e: nat) {
    forall i, j | e <= i < j < |q| :: q[i] != q[j]
  }

  // ----- What a new hash does -----

  lemma AppendWithRoom(w: Window, n: nat, e: nat, x: Hash)
    requires n >= 1 && Slack(w, n, e) && x !in w.seen && e >= 1 && |w.queue| < n
    ensures Observe(w, n, x) == Window(w.seen + {x}, w.queue + [x]) && Slack(Observe(w, n, x), n, e)
  {
    assert |w.seen + {x}| == |w.seen| + 1;
  }

  lemma AppendDrops(w: Window, n: nat, e: nat, x: Hash)
    requires n >= 1 && Slack(w, n, e) && x !in w.seen && e >= 2 && |w.queue| == n
    ensures Observe(w, n, x) == Window(w.seen + {x}, w.queue[1..] + [x]) && Slack(Observe(w, n, x), n, e - 1)
  {
    assert |w.seen + {x}| == |w.seen| + 1;
  }

  /** The place in the extended queue of the hash that the set loses. */
  function Popped(e: nat): nat { if e == 1 then 1 else 0 }

  lemma AppendPops(w: Window, n: nat, e: nat, x: Hash)
    requires n >= 1 && Slack(w, n, e) && x !in w.seen && e <= 1 && (e == 1 ==> |w.queue| == n)
    ensures var all, p := w.queue + [x], Popped(e);
            && p < |all|
            && Observe(w, n, x) == Window(w.seen + {x} - {all[p]}, all[p + 1..])
            && (Contained(Observe(w, n, x)) ==> Slack(Observe(w, n, x), n, 0))
  {
    var all, p := w.queue + [x], Popped(e);
    assert |w.seen + {x}| == |w.seen| + 1 == n + 1;
    assert Append(w.queue, n, x) == all[p..];
    assert all[p..][1..] == all[p + 1..];
    assert all[p] in w.seen + {x};
    assert |w.seen + {x} - {all[p]}| == n;
  }

  // ----- Without late repeats nothing is lost -----

  lemma SpreadStep(w: Window, n: nat, e: nat, x: Hash) returns (e': nat)
    requires n >= 1 && Slack(w, n, e) && Spread(w.queue, e) && x !in w.seen
    ensures Slack(Observe(w, n, x), n, e') && Spread(Observe(w, n, x).queue, e')
  {
    if e >= 1 && |w.queue| < n {
      AppendWithRoom(w, n, e, x);
      e' := e;
    } else if e >= 2 {
      AppendDrops(w, n, e, x);
      e' := e - 1;
    } else {
      AppendPops(w, n, e, x);
      PoppedIsGone(w.queue, e, x);
      e' := 0;
    }
  }

  lemma PoppedIsGone(q: seq<Hash>, e: nat, x: Hash)
    requires Spread(q, e) && x !in q && e <= 1 && Popped(e) < |q + [x]|
    ensures var all, p := q + [x], Popped(e);
            all[p] !in all[p + 1..] && Spread(all[p + 1..], 0)
  {
  }

  lemma {:induction false} SpreadRun(w: Window, n: nat, e: nat, hs: seq<Hash>) returns (e': nat)
    requires n >= 1 && Slack(w, n, e) && Spread(w.queue, e)
    ensures Slack(Run(w, n, hs), n, e') && Spread(Run(w, n, hs).queue, e')
  {
    e' := e;
    if hs != [] {
      e' := SpreadRun(w, n, e, hs[..|hs| - 1]);
      var before := Run(w, n, hs[..|hs| - 1]);
      if hs[|hs| - 1] !in before.seen {
        e' := SpreadStep(before, n, e', hs[|hs| - 1]);
      }
    }
  }

  // ----- A late repeat is lost -----

  lemma {:induction false} LongerThanAll(hs: set<Hash>) returns (l: nat)
    ensures forall h :: h in hs ==> |h| < l
  {
    l := 0;
    if hs != {} {
      var h :| h in hs;
      var rest := LongerThanAll(hs - {h});
      l := if |h| < rest then rest else |h| + 1;
    }
  }

  /** There is always another hash. */
  lemma NewHash(hs: set<Hash>) returns (x: Hash)
    ensures x !in hs
  {
    var l := LongerThanAll(hs);
    x := seq(l, _ => 'f');
  }

  lemma {:induction false} RunFromFirst(w: Window, n: nat, x: Hash, hs: seq<Hash>)
    requires n >= 1 && |w.queue| <= n
    ensures Run(w, n, [x] + hs) == Run(Observe(w, n, x), n, hs)
  {
    if hs == [] {
      assert [x] + hs == [x] && [x][..0] == [];
    } else {
      var front := hs[..|hs| - 1];
      assert ([x] + hs)[..|hs|] == [x] + front;
      RunFromFirst(w, n, x, front);
    }
  }

  /** New lines push the first of two equal hashes out of the set while the second is queued. */
  lemma {:induction false} RepeatIsLost(w: Window, n: nat, e: nat, a: nat, b: nat) returns (hs: seq<Hash>)
    requires n >= 1 && Slack(w, n, e) && e <= a < b < |w.queue| && w.queue[a] == w.queue[b]
    ensures !Contained(Run(w, n, hs))
    decreases n - |w.queue| + 2 * a
  {
    var x := NewHash(w.seen);
    var next := Observe(w, n, x);
    var rest: seq<Hash>;
    if e >= 1 && |w.queue| < n {
      AppendWithRoom(w, n, e, x);
      rest := RepeatIsLost(next, n, e, a, b);
    } else if e >= 2 {
      AppendDrops(w, n, e, x);
      rest := RepeatIsLost(next, n, e - 1, a - 1, b - 1);
    } else {
      AppendPops(w, n, e, x);
      rest := RepeatAfterPop(w, n, e, a, b, x);
    }
    RunFromFirst(w, n, x, rest);
    hs := [x] + rest;
  }

  lemma {:induction false} RepeatAfterPop(w: Window, n: nat, e: nat, a: nat, b: nat, x: Hash) returns (rest: seq<Hash>)
    requires n >= 1 && Slack(w, n, e) && e <= a < b < |w.queue| && w.queue[a] == w.queue[b]
    requires e <= 1 && (e == 1 ==> |w.queue| == n) && x !in w.seen
    ensures !Contained(Run(Observe(w, n, x), n, rest))
    decreases n - |w.queue| + 2 * a, 0
  {
    var all, p, next := w.queue + [x], Popped(e), Observe(w, n, x);
    AppendPops(w, n, e, x);
    if !Contained(next) {
      rest := [];
    } else {
      StillRepeated(all, p, a, b, next.seen);
      rest := RepeatIsLost(next, n, 0, a - p - 1, b - p - 1);
    }
  }

  /** While the popped hash is really gone, the repeat lies behind it. */
  lemma StillRepeated(all: seq<Hash>, p: nat, a: nat, b: nat, seen: set<Hash>)
    requires p <= a < b < |all| && all[a] == all[b]
    requires Elements(all[p + 1..]) <= seen && all[p] !in seen
    ensures a > p && all[p + 1..][a - p - 1] == all[p + 1..][b - p - 1]
  {
    assert all[p + 1..][b - p - 1] in Elements(all[p + 1..]);
  }

  // ----- Main theorems -----

  /** A window with slack e keeps every queued hash recognised, over all runs, exactly when no hash is
      queued twice behind its first e places. */
  lemma AlwaysContainedIff(w: Window, n: nat, e: nat)
    requires n >= 1 && Slack(w, n, e)
    ensures AlwaysContained(w, n) <==> Spread(w.queue, e)
  {
    if Spread(w.queue, e) {
      forall hs
        ensures Contained(Run(w, n, hs))
      {
        var e' := SpreadRun(w, n, e, hs);
      }
    } else {
      var i, j :| e <= i < j < |w.queue| && w.queue[i] == w.queue[j];
      var hs := RepeatIsLost(w, n, e, i, j);
    }
  }

  lemma {:induction false} ElementsAreNotMore(hs: seq<Hash>)
    ensures |Elements(hs)| <= |hs|
  {
    if hs != [] {
      ElementsAreNotMore(hs[..|hs| - 1]);
      ElementsOfLast(hs);
    }
  }

  function Repeats(hs: seq<Hash>): int { |hs| - |Elements(hs)| }

  /** Seeding keeps every queued hash recognised, whatever lines come, exactly when no stored hash
      occurs twice at positions greater than the number of repeats. */
  lemma SeedIsContainedIff(n: nat, hs: seq<Hash>)
    requires 1 <= n && |hs| <= n
    ensures AlwaysContained(Seeded(EMPTY, n, hs), n)
            <==> forall i, j | 0 <= i < j < |hs| && i > Repeats(hs) :: hs[i] != hs[j]
  {
    SeedCollects(n, hs);
    ElementsAreNotMore(hs);
    AlwaysContainedIff(Window(Elements(hs), hs), n, Repeats(hs) + 1);
  }

  /** So a daemon of any capacity above the size of a seed can lose a line that is among its newest. */
  lemma RepeatedSeedLosesALine(n: nat)
    requires n > SEED_EVENTS
    ensures !AlwaysContained(Seeded(EMPTY, n, ["a", "b", "c", "c"]), n)
  {
    var hs := ["a", "b", "c", "c"];
    assert Elements(hs) == {"a", "b", "c"};
    SeedIsContainedIff(n, hs);
    assert hs[2] == hs[3];
  }
}
