/**
 The window of log hashes that the telemetry daemon has already emitted: a set for the lookup and a
 queue of bounded length for the order of eviction.
 */
module SeenWindow {
  import opened Sequences

  /** A SHA-256 digest in hexadecimal. */
  type Hash = string

  const MAX_SEEN_LOG_HASHES: nat := 10000
  const SEED_EVENTS: nat := 500

  datatype Window = Window(seen: set<Hash>, queue: seq<Hash>)

  const EMPTY: Window := Window({}, [])

  /** `append` on a deque of bounded length: a full one silently drops its oldest element. */
  function Append(q: seq<Hash>, n: nat, h: Hash): (r: seq<Hash>)
    requires n >= 1 && |q| <= n
    ensures 1 <= |r| <= n && r[|r| - 1] == h
  {
    (if |q| == n then q[1..] else q) + [h]
  }

  /** What observing one log line does to the window. */
  function Observe(w: Window, n: nat, h: Hash): (r: Window)
    requires n >= 1 && |w.queue| <= n
    ensures |r.queue| <= n
  {
    if h in w.seen then w
    else
      var seen, queue := w.seen + {h}, Append(w.queue, n, h);
      if |seen| > n then Window(seen - {queue[0]}, queue[1..]) else Window(seen, queue)
  }

  function Run(w: Window, n: nat, hs: seq<Hash>): (r: Window)
    requires n >= 1 && |w.queue| <= n
    ensures |r.queue| <= n
  {
    if hs == [] then w else Observe(Run(w, n, hs[..|hs| - 1]), n, hs[|hs| - 1])
  }

  /** How many of the observations were new, and so emitted. */
  function Emitted(w: Window, n: nat, hs: seq<Hash>): (k: nat)
    requires n >= 1 && |w.queue| <= n
    ensures k <= |hs|
  {
    if hs == [] then 0
    else
      var front := hs[..|hs| - 1];
      Emitted(w, n, front) + (if hs[|hs| - 1] in Run(w, n, front).seen then 0 else 1)
  }

  /** Which lines those were, in order. */
  function EmittedLines(w: Window, n: nat, hs: seq<Hash>): (r: seq<Hash>)
    requires n >= 1 && |w.queue| <= n
    ensures |r| == Emitted(w, n, hs)
  {
    if hs == [] then []
    else
      var front := hs[..|hs| - 1];
      EmittedLines(w, n, front) + (if hs[|hs| - 1] in Run(w, n, front).seen then [] else [hs[|hs| - 1]])
  }

  /** Seeding from a file adds without looking. */
  function Seeded(w: Window, n: nat, hs: seq<Hash>): (r: Window)
    requires n >= 1 && |w.queue| <= n
    ensures |r.queue| <= n
  {
    if hs == [] then w
    else
      var before := Seeded(w, n, hs[..|hs| - 1]);
      var h := hs[|hs| - 1];
      Window(before.seen + {h}, Append(before.queue, n, h))
  }

  function LastEvents(hs: seq<Hash>): (r: seq<Hash>)
    ensures |r| == (if |hs| < 500 then |hs| else 500)
    ensures forall i | 0 <= i < |r| :: r[i] == hs[|hs| - |r| + i]
  {
    if |hs| <= SEED_EVENTS then hs else hs[|hs| - SEED_EVENTS..]
  }

  // ----- The daemon's state -----

  class Daemon {
    var seen: set<Hash>
    var queue: seq<Hash>
    const capacity: nat

    ghost predicate Valid() reads this {
      capacity >= 1 && |queue| <= capacity
    }

    function State(): Window reads this {
      Window(seen, queue)
    }

    constructor (capacity: nat)
      requires capacity >= 1
      ensures Valid() && this.capacity == capacity && State() == EMPTY
    {
      this.capacity := capacity;
      seen, queue := {}, [];
    }

    method AppendHash(h: Hash)
      requires Valid()
      modifies this`queue
      ensures Valid() && queue == Append(old(queue), capacity, h)
    {
      if |queue| == capacity {
        queue := queue[1..];
      }
      queue := queue + [h];
    }

    /** The body of the loop over log lines: whether the line is emitted. */
    method ObserveLine(h: Hash) returns (emitted: bool)
      requires Valid()
      modifies this`seen, this`queue
      ensures Valid() && State() == Observe(old(State()), capacity, h)
      ensures emitted <==> h !in old(seen)
    {
      emitted := false;
      if h !in seen {
        seen := seen + {h};
        AppendHash(h);
        if |seen| > capacity {
          var oldest := queue[0];
          queue := queue[1..];
          seen := seen - {oldest};
        }
        emitted := true;
      }
    }

    /** The loop over one batch of log lines, which collects the new ones. */
    method ObserveBatch(hs: seq<Hash>) returns (events: seq<Hash>)
      requires Valid()
      modifies this`seen, this`queue
      ensures Valid() && State() == Run(old(State()), capacity, hs)
      ensures events == EmittedLines(old(State()), capacity, hs)
    {
      events := [];
      for i := 0 to |hs|
        invariant Valid() && State() == Run(old(State()), capacity, hs[..i])
        invariant events == EmittedLines(old(State()), capacity, hs[..i])
      {
        assert hs[..i + 1][..i] == hs[..i];
        var emitted := ObserveLine(hs[i]);
        if emitted {
          events := events + [hs[i]];
        }
      }
      assert hs[..|hs|] == hs;
    }

    /** `seed_seen_log_hashes_from_file`, on the hashes of the stored events. */
    method Seed(hs: seq<Hash>)
      requires Valid()
      modifies this`seen, this`queue
      ensures Valid() && State() == Seeded(old(State()), capacity, LastEvents(hs))
    {
      var last := LastEvents(hs);
      for i := 0 to |last|
        invariant Valid() && State() == Seeded(old(State()), capacity, last[..i])
      {
        assert last[..i + 1][..i] == last[..i];
        seen := seen + {last[i]};
        AppendHash(last[i]);
      }
      assert last[..|last|] == last;
    }
  }

  // ----- The invariant -----

  /** Before the first overflow the queue and the set agree; after it the set holds one more hash,
      which the full queue dropped silently, and which nothing will ever remove. */
  ghost predicate Clean(w: Window, n: nat) {
    && Distinct(w.queue)
    && (Aligned(w, n) || exists orphan :: Overflowed(w, n, orphan))
  }

  predicate Aligned(w: Window, n: nat) { w.seen == Elements(w.queue) && |w.queue| <= n }

  predicate Overflowed(w: Window, n: nat, orphan: Hash) {
    orphan !in w.queue && w.seen == Elements(w.queue) + {orphan} && |w.queue| == n - 1
  }

  /** What the invariant says about the set: its bound, and at most one hash that is not queued. */
  lemma CleanBounds(w: Window, n: nat)
    requires Clean(w, n) && n >= 1
    ensures |w.seen| <= n && |w.queue| <= n && Elements(w.queue) <= w.seen
    ensures |w.seen - Elements(w.queue)| <= 1
    ensures (exists orphan :: Overflowed(w, n, orphan)) ==> |w.seen| == n
  {
    SizeOfDistinct(w.queue);
    if orphan :| Overflowed(w, n, orphan) {
      assert w.seen - Elements(w.queue) == {orphan};
    } else {
      assert w.seen - Elements(w.queue) == {};
    }
  }

  /** Dropping the first element of a queue of distinct elements. */
  lemma DropFirst(q: seq<Hash>)
    requires Distinct(q) && q != []
    ensures Distinct(q[1..]) && Elements(q[1..]) == Elements(q) - {q[0]}
  {
  }

  lemma AddLast(q: seq<Hash>, h: Hash)
    requires Distinct(q) && h !in q
    ensures Distinct(q + [h]) && Elements(q + [h]) == Elements(q) + {h}
  {
  }

  lemma ObserveWithRoom(w: Window, n: nat, h: Hash)
    requires Distinct(w.queue) && Aligned(w, n) && h !in w.seen && |w.queue| < n
    ensures Observe(w, n, h) == Window(w.seen + {h}, w.queue + [h])
    ensures Distinct(Observe(w, n, h).queue) && Aligned(Observe(w, n, h), n)
  {
    SizeOfDistinct(w.queue);
    AddLast(w.queue, h);
  }

  lemma ObserveFull(w: Window, n: nat, h: Hash)
    requires n >= 1 && Distinct(w.queue) && Aligned(w, n) && h !in w.seen && |w.queue| == n
    ensures Observe(w, n, h).queue == (w.queue + [h])[2..] && Distinct(Observe(w, n, h).queue)
    ensures Overflowed(Observe(w, n, h), n, w.queue[0])
  {
    var all := w.queue + [h];
    SizeOfDistinct(w.queue);
    AddLast(w.queue, h);
    DropFirst(all);
    DropFirst(all[1..]);
    assert all[1..] == w.queue[1..] + [h] && all[1..][1..] == all[2..];
    assert |w.seen + {h}| == n + 1;
  }

  lemma ObserveOverflowed(w: Window, n: nat, orphan: Hash, h: Hash)
    requires n >= 1 && Distinct(w.queue) && Overflowed(w, n, orphan) && h !in w.seen
    ensures Observe(w, n, h).queue == (w.queue + [h])[1..]
    ensures Distinct(Observe(w, n, h).queue) && Overflowed(Observe(w, n, h), n, orphan)
  {
    var q := w.queue;
    SizeOfDistinct(q);
    AddLast(q, h);
    DropFirst(q + [h]);
    assert |w.seen + {h}| == n + 1;
  }

  lemma ObserveKeepsClean(w: Window, n: nat, h: Hash)
    requires n >= 1 && Clean(w, n) && |w.queue| <= n
    ensures Clean(Observe(w, n, h), n)
  {
    if h !in w.seen {
      if Aligned(w, n) {
        if |w.queue| < n { ObserveWithRoom(w, n, h); } else { ObserveFull(w, n, h); }
      } else {
        var orphan :| Overflowed(w, n, orphan);
        ObserveOverflowed(w, n, orphan, h);
      }
    }
  }

  lemma {:induction false} RunKeepsClean(w: Window, n: nat, hs: seq<Hash>)
    requires n >= 1 && Clean(w, n) && |w.queue| <= n
    ensures Clean(Run(w, n, hs), n)
  {
    if hs != [] {
      RunKeepsClean(w, n, hs[..|hs| - 1]);
      ObserveKeepsClean(Run(w, n, hs[..|hs| - 1]), n, hs[|hs| - 1]);
    }
  }

  /** Over every run the queue is duplicate-free and inside the set, the set never exceeds the
      capacity, and at most one hash is in the set but not in the queue. */
  lemma EveryRunIsClean(w: Window, n: nat, hs: seq<Hash>)
    requires n >= 1 && Clean(w, n) && |w.queue| <= n
    ensures var r := Run(w, n, hs);
            && |r.seen| <= n && Distinct(r.queue)
            && Elements(r.queue) <= r.seen && |r.seen - Elements(r.queue)| <= 1
  {
    RunKeepsClean(w, n, hs);
    CleanBounds(Run(w, n, hs), n);
  }

  /** The hash that the first overflow left behind is recognised for good, so its line is never
      emitted again. */
  lemma {:induction false} TheOrphanStays(w: Window, n: nat, orphan: Hash, hs: seq<Hash>)
    requires n >= 1 && Distinct(w.queue) && Overflowed(w, n, orphan)
    ensures Distinct(Run(w, n, hs).queue) && Overflowed(Run(w, n, hs), n, orphan)
    ensures orphan in Run(w, n, hs).seen
  {
    if hs != [] {
      TheOrphanStays(w, n, orphan, hs[..|hs| - 1]);
      var before := Run(w, n, hs[..|hs| - 1]);
      if hs[|hs| - 1] !in before.seen {
        ObserveOverflowed(before, n, orphan, hs[|hs| - 1]);
      }
    }
  }

  // ----- How long a hash is recognised -----

  /** The hashes emitted by a run are the newest of the queue, while there are fewer than n. */
  predicate NewestAre(r: Window, k: nat, hs: seq<Hash>) {
    k <= |r.queue| && forall i | |r.queue| - k <= i < |r.queue| :: r.queue[i] in hs
  }

  lemma {:induction false} EmittedAreNewest(w: Window, n: nat, hs: seq<Hash>)
    requires n >= 1 && Clean(w, n) && |w.queue| <= n && Emitted(w, n, hs) <= n - 1
    ensures NewestAre(Run(w, n, hs), Emitted(w, n, hs), hs)
  {
    if hs != [] {
      var front, h := hs[..|hs| - 1], hs[|hs| - 1];
      var before := Run(w, n, front);
      EmittedAreNewest(w, n, front);
      RunKeepsClean(w, n, front);
      assert forall x :: x in front ==> x in hs;
      if h !in before.seen { ObservedIsNewest(before, n, h, Emitted(w, n, front), hs); }
    }
  }

  lemma ObservedIsNewest(w: Window, n: nat, h: Hash, k: nat, hs: seq<Hash>)
    requires n >= 1 && Clean(w, n) && |w.queue| <= n && h !in w.seen && h in hs
    requires NewestAre(w, k, hs) && k + 1 <= n - 1
    ensures NewestAre(Observe(w, n, h), k + 1, hs)
  {
    ObserveShifts(w, n, h);
  }

  /** A new hash goes last and pushes out at most what does not fit into n - 1 places. */
  lemma ObserveShifts(w: Window, n: nat, h: Hash)
    requires n >= 1 && Clean(w, n) && |w.queue| <= n && h !in w.seen
    ensures var q, r := w.queue + [h], Observe(w, n, h).queue;
            && (r == q || |r| == n - 1) && |r| <= |q| && r == q[|q| - |r|..]
  {
    if Aligned(w, n) {
      if |w.queue| < n { ObserveWithRoom(w, n, h); } else { ObserveFull(w, n, h); }
    } else {
      var orphan :| Overflowed(w, n, orphan);
      ObserveOverflowed(w, n, orphan, h);
    }
  }

  /** h is queued, with k newer hashes behind it. */
  predicate At(w: Window, k: nat, h: Hash) {
    k < |w.queue| && w.queue[|w.queue| - 1 - k] == h
  }

  /** A hash with j newer ones is still queued after k more, if j + k <= n - 2. */
  lemma {:induction false} StaysQueued(w: Window, n: nat, hs: seq<Hash>, j: nat, h: Hash)
    requires n >= 1 && Clean(w, n) && |w.queue| <= n && At(w, j, h)
    requires j + Emitted(w, n, hs) <= n - 2
    ensures At(Run(w, n, hs), j + Emitted(w, n, hs), h)
  {
    if hs != [] {
      var front, last := hs[..|hs| - 1], hs[|hs| - 1];
      StaysQueued(w, n, front, j, h);
      RunKeepsClean(w, n, front);
      StaysQueuedStep(Run(w, n, front), n, last, j + Emitted(w, n, front), h);
    }
  }

  lemma StaysQueuedStep(w: Window, n: nat, last: Hash, k: nat, h: Hash)
    requires n >= 1 && Clean(w, n) && |w.queue| <= n && At(w, k, h) && (last in w.seen || k + 1 <= n - 2)
    ensures At(Observe(w, n, last), if last in w.seen then k else k + 1, h)
  {
    if last !in w.seen { ObserveKeepsPlaces(w, n, last, k, h); }
  }

  lemma ObserveKeepsPlaces(w: Window, n: nat, last: Hash, k: nat, h: Hash)
    requires n >= 1 && Clean(w, n) && |w.queue| <= n && last !in w.seen && At(w, k, h) && k + 1 <= n - 2
    ensures At(Observe(w, n, last), k + 1, h)
  {
    ObserveShifts(w, n, last);
    KeepsPlace(w.queue, Observe(w, n, last).queue, last, k, h);
  }

  lemma QueuedIsSeen(w: Window, n: nat, k: nat, h: Hash)
    requires Clean(w, n) && At(w, k, h)
    ensures h in w.seen
  {
  }

  /** Few distinct lines cannot emit more than one event each. */
  lemma {:induction false} EmittedAtMostOnce(w: Window, n: nat, hs: seq<Hash>)
    requires n >= 1 && Clean(w, n) && |w.queue| <= n && |Elements(hs)| <= n - 2
    ensures Emitted(w, n, hs) <= |Elements(hs)|
  {
    if hs != [] {
      var front, h := hs[..|hs| - 1], hs[|hs| - 1];
      SubsetSize(Elements(front), Elements(hs));
      EmittedAtMostOnce(w, n, front);
      EmittedAreNewest(w, n, hs);
      RunKeepsClean(w, n, hs);
      var q, k := Run(w, n, hs).queue, Emitted(w, n, hs);
      var newest := q[|q| - k..];
      SizeOfDistinct(newest);
      assert forall i | 0 <= i < k :: newest[i] == q[|q| - k + i];
      SubsetSize(Elements(newest), Elements(hs));
    }
  }

  lemma {:induction false} SubsetSize(a: set<Hash>, b: set<Hash>)
    requires a <= b
    ensures |a| <= |b|
  {
    if a != {} {
      var x :| x in a;
      SubsetSize(a - {x}, b - {x});
    }
  }

  /** An emitted hash is recognised through the next n - 2 emissions: a line is emitted again only
      after at least n - 1 others. */
  lemma RecognisedFor(w: Window, n: nat, h: Hash, hs: seq<Hash>)
    requires n >= 2 && Clean(w, n) && |w.queue| <= n && h !in w.seen
    ensures Emitted(Observe(w, n, h), n, hs) <= n - 2 ==> h in Run(Observe(w, n, h), n, hs).seen
  {
    ObserveKeepsClean(w, n, h);
    NewIsLast(w, n, h);
    if Emitted(Observe(w, n, h), n, hs) <= n - 2 { StillSeen(Observe(w, n, h), n, hs, h); }
  }

  lemma NewIsLast(w: Window, n: nat, h: Hash)
    requires n >= 2 && Clean(w, n) && |w.queue| <= n && h !in w.seen
    ensures At(Observe(w, n, h), 0, h)
  {
    ObserveShifts(w, n, h);
  }

  lemma StillSeen(w: Window, n: nat, hs: seq<Hash>, h: Hash)
    requires n >= 1 && Clean(w, n) && |w.queue| <= n && At(w, 0, h) && Emitted(w, n, hs) <= n - 2
    ensures h in Run(w, n, hs).seen
  {
    var r, k := Run(w, n, hs), Emitted(w, n, hs);
    RunKeepsClean(w, n, hs);
    assert At(r, k, h) by { StaysQueued(w, n, hs, 0, h); }
    QueuedIsSeen(r, n, k, h);
  }

  /** In terms of the lines alone: through any later lines with at most n - 2 distinct hashes. */
  lemma RecognisedAfterwards(w: Window, n: nat, h: Hash, hs: seq<Hash>)
    requires n >= 2 && Clean(w, n) && |w.queue| <= n && h !in w.seen && |Elements(hs)| <= n - 2
    ensures h in Run(Observe(w, n, h), n, hs).seen
  {
    ObserveKeepsClean(w, n, h);
    EmittedAtMostOnce(Observe(w, n, h), n, hs);
    RecognisedFor(w, n, h, hs);
  }

  /** h was emitted, and k hashes have been since. */
  predicate Aged(w: Window, n: nat, k: nat, h: Hash) {
    && (h in w.seen <==> k + 2 <= n)
    && (k + 2 <= n ==> At(w, k, h))
  }

  /** After the first overflow n - 2 is exact: one more emission and the hash is forgotten. */
  lemma ForgottenExactly(w: Window, n: nat, orphan: Hash, hs: seq<Hash>, j: nat, h: Hash)
    requires n >= 2 && Distinct(w.queue) && Overflowed(w, n, orphan) && At(w, j, h) && h !in hs
    ensures h in Run(w, n, hs).seen <==> j + Emitted(w, n, hs) <= n - 2
  {
    Ages(w, n, orphan, hs, j, h);
  }

  lemma {:induction false} Ages(w: Window, n: nat, orphan: Hash, hs: seq<Hash>, j: nat, h: Hash)
    requires n >= 2 && Distinct(w.queue) && Overflowed(w, n, orphan) && At(w, j, h) && h !in hs
    ensures Aged(Run(w, n, hs), n, j + Emitted(w, n, hs), h)
  {
    if hs == [] {
      QueuedIsSeen(w, n, j, h);
    } else {
      var front, last := hs[..|hs| - 1], hs[|hs| - 1];
      Ages(w, n, orphan, front, j, h);
      AgesOnce(w, n, orphan, front, last, j + Emitted(w, n, front), h);
    }
  }

  lemma AgesOnce(w: Window, n: nat, orphan: Hash, front: seq<Hash>, last: Hash, k: nat, h: Hash)
    requires n >= 2 && Distinct(w.queue) && Overflowed(w, n, orphan) && last != h
    requires Aged(Run(w, n, front), n, k, h)
    ensures Aged(Observe(Run(w, n, front), n, last), n, if last in Run(w, n, front).seen then k else k + 1, h)
  {
    TheOrphanStays(w, n, orphan, front);
    if last !in Run(w, n, front).seen { AgesByOne(Run(w, n, front), n, orphan, last, k, h); }
  }

  lemma AgesByOne(w: Window, n: nat, orphan: Hash, last: Hash, k: nat, h: Hash)
    requires n >= 2 && Distinct(w.queue) && Overflowed(w, n, orphan)
    requires Aged(w, n, k, h) && last !in w.seen && last != h
    ensures Aged(Observe(w, n, last), n, k + 1, h)
  {
    if k + 3 <= n {
      ObserveOverflowed(w, n, orphan, last);
      KeepsPlace(w.queue, Observe(w, n, last).queue, last, k, h);
    } else if k + 2 == n {
      OldestIsForgotten(w, n, orphan, last, h);
    } else {
      NothingComesBack(w, n, last, h);
    }
  }

  lemma KeepsPlace(q: seq<Hash>, r: seq<Hash>, last: Hash, k: nat, h: Hash)
    requires k < |q| && q[|q| - 1 - k] == h
    requires k + 1 < |r| <= |q| + 1 && r == (q + [last])[|q| + 1 - |r|..]
    ensures r[|r| - 2 - k] == h
  {
  }

  lemma OldestIsForgotten(w: Window, n: nat, orphan: Hash, last: Hash, h: Hash)
    requires n >= 2 && Distinct(w.queue) && Overflowed(w, n, orphan) && At(w, n - 2, h) && last !in w.seen
    ensures h !in Observe(w, n, last).seen
  {
    ObserveOverflowed(w, n, orphan, last);
    DropFirst(w.queue + [last]);
    assert (w.queue + [last])[0] == h && h != last && h != orphan;
  }

  lemma NothingComesBack(w: Window, n: nat, last: Hash, h: Hash)
    requires n >= 1 && |w.queue| <= n && h !in w.seen && h != last
    ensures h !in Observe(w, n, last).seen
  {
  }

  // ----- Seeding -----

  lemma ElementsOfLast(hs: seq<Hash>)
    requires hs != []
    ensures hs == hs[..|hs| - 1] + [hs[|hs| - 1]]
    ensures Elements(hs) == Elements(hs[..|hs| - 1]) + {hs[|hs| - 1]}
  {
    assert hs == hs[..|hs| - 1] + [hs[|hs| - 1]];
  }

  lemma {:induction false} SeedCollects(n: nat, hs: seq<Hash>)
    requires n >= 1 && |hs| <= n
    ensures Seeded(EMPTY, n, hs) == Window(Elements(hs), hs)
  {
    if hs != [] {
      var front := hs[..|hs| - 1];
      SeedCollects(n, front);
      ElementsOfLast(hs);
    }
  }

  /** A seed of distinct hashes establishes the invariant. */
  lemma DistinctSeedIsClean(n: nat, hs: seq<Hash>)
    requires SEED_EVENTS < n && Distinct(LastEvents(hs))
    ensures Clean(Seeded(EMPTY, n, LastEvents(hs)), n)
  {
    SeedCollects(n, LastEvents(hs));
  }
}
