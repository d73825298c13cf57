/** The order of the incidents and the time they are measured from. */
module ClusteringOrder {
  import opened Clustering
  import opened Sequences
  import opened Text

  /** The first kept line with key `k` is line `p`. */
  predicate FirstAt(entries: seq<Entry>, k: string, p: nat) {
    && p < |entries| && entries[p].kept && entries[p].key == k
    && forall q | 0 <= q < p :: !(entries[q].kept && entries[q].key == k)
  }

  lemma {:induction false} SeenAt(entries: seq<Entry>, i: nat) returns (p: nat)
    requires i < |FirstSeen(entries)|
    ensures FirstAt(entries, FirstSeen(entries)[i], p)
  {
    var n := |entries| - 1;
    var front := FirstSeen(entries[..n]);
    if i < |front| {
      p := SeenAt(entries[..n], i);
    } else {
      p := n;
      NotSeenMeansNone(entries[..n], entries[n].key);
    }
  }

  lemma {:induction false} NotSeenMeansNone(entries: seq<Entry>, k: string)
    requires k !in FirstSeen(entries)
    ensures forall q | 0 <= q < |entries| :: !(entries[q].kept && entries[q].key == k)
  {
    if entries != [] {
      var n := |entries| - 1;
      NotSeenMeansNone(entries[..n], k);
      assert forall q | 0 <= q < n :: entries[..n][q] == entries[q];
      assert entries[n].kept ==> entries[n].key in FirstSeen(entries);
    }
  }

  lemma {:induction false} SeenInOrder(entries: seq<Entry>, i: nat, j: nat, p: nat, q: nat)
    requires i < j < |FirstSeen(entries)|
    requires FirstAt(entries, FirstSeen(entries)[i], p) && FirstAt(entries, FirstSeen(entries)[j], q)
    ensures p < q
  {
    var n := |entries| - 1;
    var front := FirstSeen(entries[..n]);
    FirstSeenIsDistinct(entries);
    var p' := SeenAt(entries[..n], i);
    assert FirstAt(entries, FirstSeen(entries)[i], p') && p == p';
    if j < |front| {
      var q' := SeenAt(entries[..n], j);
      assert FirstAt(entries, FirstSeen(entries)[j], q') && q == q';
      SeenInOrder(entries[..n], i, j, p, q);
    } else {
      NotSeenMeansNone(entries[..n], entries[n].key);
      assert q == n;
    }
  }

  /** The incidents come in the order of their first kept lines: the one that stood first in the
      stream is first in the dictionary. */
  lemma OrderIsOfFirstLines(lines: seq<Line>, i: nat, j: nat) returns (p: nat, q: nat)
    requires i < j < |FirstSeen(DigestAll(lines))|
    ensures FirstAt(DigestAll(lines), FirstSeen(DigestAll(lines))[i], p)
    ensures FirstAt(DigestAll(lines), FirstSeen(DigestAll(lines))[j], q)
    ensures p < q
  {
    p := SeenAt(DigestAll(lines), i);
    q := SeenAt(DigestAll(lines), j);
    SeenInOrder(DigestAll(lines), i, j, p, q);
  }

  /** A line counts exactly when it is not noise and does not start with an empty line; its key is its
      container, an underscore and the number of its template. */
  lemma KeptIff(lines: seq<Line>, i: nat)
    requires i < |lines|
    ensures var e := DigestAll(lines)[i];
            && e.line == lines[i]
            && (e.kept <==> !lines[i].noise && Strip(lines[i].content) != "" && Strip(lines[i].content)[0] != '\n')
            && e.key == lines[i].container + "_" + Decimal(lines[i].mined)
  {
    SplitStarts(Strip(lines[i].content));
  }

  lemma SplitStarts(t: string)
    ensures Split(t)[0] == "" <==> t == "" || t[0] == '\n'
  {
  }

  /** The latest time is that of a line that is not noise, and none of those is later. */
  lemma {:induction false} LatestIsAttained(entries: seq<Entry>)
    ensures forall e :: e in entries && !e.line.noise ==> e.line.time <= LatestOf(entries)
    ensures LatestOf(entries) > 0 ==> exists e :: e in entries && !e.line.noise && e.line.time == LatestOf(entries)
  {
    if entries != [] {
      var n := |entries| - 1;
      LatestIsAttained(entries[..n]);
      assert entries == entries[..n] + [entries[n]];
      if LatestOf(entries) > 0 && LatestOf(entries[..n]) == LatestOf(entries) {
        var e :| e in entries[..n] && !e.line.noise && e.line.time == LatestOf(entries[..n]);
        assert e in entries;
      }
    }
  }

  function KeptPlaces(entries: seq<Entry>): set<int> {
    set i | 0 <= i < |entries| && entries[i].kept
  }

  lemma {:induction false} KeptAreCounted(entries: seq<Entry>)
    ensures KeptCount(entries) == |KeptPlaces(entries)|
  {
    if entries != [] {
      var n := |entries| - 1;
      KeptAreCounted(entries[..n]);
      OneMoreIn(KeptPlaces(entries), KeptPlaces(entries[..n]), n, entries[n].kept);
    }
  }

  // ----- Ranking is stable -----

  /** The incidents of one priority, in their order. */
  function OfPriority(xs: seq<Incident>, p: real): seq<Incident> {
    if xs == [] then [] else (if xs[0].priority == p then [xs[0]] else []) + OfPriority(xs[1..], p)
  }

  lemma {:induction false} OfPriorityConcat(a: seq<Incident>, b: seq<Incident>, p: real)
    ensures OfPriority(a + b, p) == OfPriority(a, p) + OfPriority(b, p)
  {
    if a == [] {
      assert a + b == b;
    } else {
      assert (a + b)[1..] == a[1..] + b;
      OfPriorityConcat(a[1..], b, p);
    }
  }

  lemma OfPriorityFirst(x: Incident, rest: seq<Incident>, p: real)
    ensures OfPriority([x] + rest, p) == (if x.priority == p then [x] else []) + OfPriority(rest, p)
  {
    assert ([x] + rest)[1..] == rest;
  }

  lemma {:induction false} NothingLower(xs: seq<Incident>, p: real)
    requires Descending(xs) && (xs != [] ==> xs[0].priority < p)
    ensures OfPriority(xs, p) == []
  {
    if xs != [] {
      if |xs| > 1 { assert xs[1..][0] == xs[1] && xs[0].priority >= xs[1].priority; }
      NothingLower(xs[1..], p);
    }
  }

  lemma {:induction false} InsertIsLast(sorted: seq<Incident>, x: Incident, p: real)
    requires Descending(sorted)
    ensures OfPriority(Insert(sorted, x), p) == OfPriority(sorted, p) + OfPriority([x], p)
  {
    OfPriorityFirst(x, [], p);
    assert [x] + [] == [x];
    if sorted == [] {
      assert [] + OfPriority([x], p) == OfPriority([x], p);
    } else if sorted[0].priority < x.priority {
      OfPriorityFirst(x, sorted, p);
      if x.priority == p { NothingLower(sorted, p); }
    } else {
      var rest := sorted[1..];
      InsertIsLast(rest, x, p);
      OfPriorityFirst(sorted[0], Insert(rest, x), p);
      Regroup(if sorted[0].priority == p then [sorted[0]] else [], OfPriority(rest, p), OfPriority([x], p));
    }
  }

  lemma Regroup(a: seq<Incident>, b: seq<Incident>, c: seq<Incident>)
    ensures a + (b + c) == a + b + c
  {
  }

  /** Incidents of equal priority keep their order. */
  lemma {:induction false} RankingIsStable(xs: seq<Incident>, p: real)
    ensures OfPriority(Ranked(xs), p) == OfPriority(xs, p)
  {
    if xs != [] {
      var n := |xs| - 1;
      RankingIsStable(xs[..n], p);
      RankedIsSorted(xs[..n]);
      InsertIsLast(Ranked(xs[..n]), xs[n], p);
      OfPriorityConcat(xs[..n], [xs[n]], p);
      assert xs == xs[..n] + [xs[n]];
    }
  }
}
