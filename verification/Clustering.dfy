/**
 Clustering of stitched log events into incidents, and their ranking.

 The noise filter and the template miner are foreign: each line carries what they answered for it.
 Times count from the smallest date, which is the number 0.
 */
module Clustering {
  import opened Wrappers
  import opened Text

  datatype Line = Line(container: string, content: string, level: string, time: nat, noise: bool, mined: nat) {
    function FirstLine(): string { Split(Strip(content))[0] }

    function Sampled(): Sample { Sample(time, level, content) }
  }

  /** A line with what the loop computes from it: whether it is counted, and its incident key. */
  datatype Entry = Entry(line: Line, kept: bool, key: string)

  function Digest(l: Line): Entry {
    Entry(l, !l.noise && l.FirstLine() != "", l.container + "_" + Decimal(l.mined))
  }

  function DigestAll(lines: seq<Line>): seq<Entry> {
    seq(|lines|, i requires 0 <= i < |lines| => Digest(lines[i]))
  }

  datatype Sample = Sample(time: nat, level: string, content: string)

  datatype Cluster = Cluster(service: string, id: nat, count: nat, severities: set<string>,
                             earliest: nat, latest: nat, samples: seq<Sample>)

  function Decimal(n: nat): (s: string)
    ensures forall i :: 0 <= i < |s| ==> IsDigit(s[i])
    ensures |s| >= 1 && (|s| == 1 <==> n < 10)
  {
    if n < 10 then [('0' as int + n) as char]
    else Decimal(n / 10) + [('0' as int + n % 10) as char]
  }

  /** The cluster after one more line, as the loop body leaves it. */
  function Join(c: Cluster, l: Line): Cluster {
    c.(count := c.count + 1,
       severities := c.severities + {l.level},
       earliest := if l.time < c.earliest then l.time else c.earliest,
       latest := if l.time > c.latest then l.time else c.latest,
       samples := c.samples + [l.Sampled()])
  }

  /** A key has a cluster exactly if it has kept lines, and the cluster describes them. */
  ghost predicate ClusteredAt(clusters: map<string, Cluster>, members: seq<Entry>, k: string) {
    (k in clusters <==> members != []) && (k in clusters ==> Describes(clusters[k], members))
  }

  /** Every key with kept lines has a cluster that describes them, and no other key has one. */
  ghost predicate Clustered(clusters: map<string, Cluster>, entries: seq<Entry>) {
    forall k :: ClusteredAt(clusters, Members(entries, k), k)
  }

  /** The clustering loop of `process_phase1_incidents`. `order` is the insertion order of the
      dictionary. */
  method ClusterLines(lines: seq<Line>) returns (clusters: map<string, Cluster>, order: seq<string>, maxLog: nat)
    ensures Clustered(clusters, DigestAll(lines))
    ensures order == FirstSeen(DigestAll(lines))
    ensures maxLog == LatestOf(DigestAll(lines))
  {
    ghost var entries := DigestAll(lines);
    clusters, order, maxLog := map[], [], 0;
    for i := 0 to |lines|
      invariant Clustered(clusters, entries[..i])
      invariant order == FirstSeen(entries[..i])
      invariant maxLog == LatestOf(entries[..i])
    {
      var l := lines[i];
      OneMore(entries, i);
      SeenIffMembers(entries[..i], entries[i].key);
      if l.noise {
        continue;
      }
      if l.time > maxLog {
        maxLog := l.time;
      }
      if l.FirstLine() == "" {
        continue;
      }
      KeptAreDigested(lines, i, entries[i].key);
      clusters, order := AddToCluster(clusters, order, l, l.container + "_" + Decimal(l.mined), entries[..i], entries[i]);
    }
    assert entries[..|lines|] == entries;
  }

  /** The rest of the loop body, for a line that is kept. */
  method AddToCluster(clusters: map<string, Cluster>, order: seq<string>, l: Line, key: string,
                      ghost before: seq<Entry>, ghost e: Entry)
    returns (clusters': map<string, Cluster>, order': seq<string>)
    requires Clustered(clusters, before) && e == Entry(l, true, key)
    requires forall m :: m in Members(before, key) ==> m.line.container == l.container && m.line.mined == l.mined
    ensures Clustered(clusters', before + [e])
    ensures order' == if Members(before, key) == [] then order + [key] else order
  {
    clusters', order' := clusters, order;
    if key !in clusters {
      clusters' := clusters[key := Cluster(l.container, l.mined, 0, {}, l.time, l.time, [])];
      order' := order + [key];
    }
    DescribesMore(clusters'[key], Members(before, key), e);
    ClusteredMore(clusters, before, e, Join(clusters'[key], l));
    clusters' := clusters'[key := Join(clusters'[key], l)];
    assert clusters' == clusters[key := clusters'[key]];
  }

  lemma ClusteredMore(clusters: map<string, Cluster>, before: seq<Entry>, e: Entry, c: Cluster)
    requires Clustered(clusters, before) && e.kept && Describes(c, Members(before, e.key) + [e])
    ensures Clustered(clusters[e.key := c], before + [e])
  {
    MembersAppend(before, e);
    forall k
      ensures ClusteredAt(clusters[e.key := c], Members(before + [e], k), k)
    {
      assert Members(before + [e], k) == WithMember(Members(before, k), e, k);
      ClusteredAtMore(clusters, Members(before, k), e, c, k);
    }
  }

  lemma ClusteredAtMore(clusters: map<string, Cluster>, members: seq<Entry>, e: Entry, c: Cluster, k: string)
    requires ClusteredAt(clusters, members, k) && e.kept && (k == e.key ==> Describes(c, members + [e]))
    ensures ClusteredAt(clusters[e.key := c], WithMember(members, e, k), k)
  {
  }

  lemma MembersAppend(entries: seq<Entry>, e: Entry)
    ensures forall k :: Members(entries + [e], k) == WithMember(Members(entries, k), e, k)
  {
    assert (entries + [e])[..|entries|] == entries;
  }

  // ----- What the clusters are -----

  /** The kept lines with key `k`, in stream order. */
  function Members(entries: seq<Entry>, k: string): seq<Entry> {
    if entries == [] then []
    else WithMember(Members(entries[..|entries| - 1], k), entries[|entries| - 1], k)
  }

  function WithMember(members: seq<Entry>, e: Entry, k: string): seq<Entry> {
    if e.kept && e.key == k then members + [e] else members
  }

  function KeptCount(entries: seq<Entry>): nat {
    if entries == [] then 0
    else KeptCount(entries[..|entries| - 1]) + (if entries[|entries| - 1].kept then 1 else 0)
  }

  /** The keys in the order of their first kept line. */
  function FirstSeen(entries: seq<Entry>): seq<string> {
    if entries == [] then []
    else
      var e := entries[|entries| - 1];
      var front := FirstSeen(entries[..|entries| - 1]);
      if e.kept && e.key !in front then front + [e.key] else front
  }

  /** The latest time of a line that is not noise, blank lines included. */
  function LatestOf(entries: seq<Entry>): nat {
    if entries == [] then 0
    else
      var l := entries[|entries| - 1].line;
      var front := LatestOf(entries[..|entries| - 1]);
      if !l.noise && l.time > front then l.time else front
  }

  function Samples(members: seq<Entry>): seq<Sample> {
    seq(|members|, i requires 0 <= i < |members| => members[i].line.Sampled())
  }

  /** `c` summarises exactly the lines `members`. */
  ghost predicate Describes(c: Cluster, members: seq<Entry>) {
    && c.count == |members| == |c.samples|
    && c.samples == Samples(members)
    && (forall m :: m in members ==> m.line.container == c.service && m.line.mined == c.id && m.line.level in c.severities)
    && (forall v :: v in c.severities ==> exists m :: m in members && m.line.level == v)
    && (forall m :: m in members ==> c.earliest <= m.line.time <= c.latest)
    && (members != [] ==> exists m :: m in members && m.line.time == c.earliest)
    && (members != [] ==> exists m :: m in members && m.line.time == c.latest)
  }

  lemma DescribesMore(c: Cluster, members: seq<Entry>, e: Entry)
    requires Describes(c, members)
    requires forall m :: m in members ==> m.line.container == e.line.container && m.line.mined == e.line.mined
    requires members == [] ==>
               c.service == e.line.container && c.id == e.line.mined && c.earliest == c.latest == e.line.time
    ensures Describes(Join(c, e.line), members + [e])
  {
    assert members != [] ==> members[0] in members;
    var c' := Join(c, e.line);
    assert forall m :: m in members + [e] <==> m in members || m == e;
    forall v | v in c'.severities
      ensures exists m :: m in members + [e] && m.line.level == v
    {
      if v in c.severities {
        var m :| m in members && m.line.level == v;
        assert m in members + [e];
      } else {
        assert e in members + [e];
      }
    }
    assert e in members + [e];
    if members != [] {
      var a :| a in members && a.line.time == c.earliest;
      var b :| b in members && b.line.time == c.latest;
      assert a in members + [e] && b in members + [e];
    }
  }

  lemma OneMore(entries: seq<Entry>, i: nat)
    requires i < |entries|
    ensures entries[..i + 1] == entries[..i] + [entries[i]]
    ensures !entries[i].kept ==> forall k :: Members(entries[..i + 1], k) == Members(entries[..i], k)
    ensures FirstSeen(entries[..i + 1]) ==
            if entries[i].kept && entries[i].key !in FirstSeen(entries[..i]) then FirstSeen(entries[..i]) + [entries[i].key]
            else FirstSeen(entries[..i])
    ensures LatestOf(entries[..i + 1]) ==
            if !entries[i].line.noise && entries[i].line.time > LatestOf(entries[..i]) then entries[i].line.time
            else LatestOf(entries[..i])
  {
    assert entries[..i + 1][..i] == entries[..i];
  }

  lemma {:induction false} SeenIffMembers(entries: seq<Entry>, k: string)
    ensures k in FirstSeen(entries) <==> Members(entries, k) != []
    decreases |entries|
  {
    if entries != [] { SeenIffMembers(entries[..|entries| - 1], k); }
  }

  lemma {:induction false} MembersAreKept(entries: seq<Entry>, k: string)
    ensures forall m :: m in Members(entries, k) ==> m.kept && m.key == k && m in entries
    decreases |entries|
  {
    if entries != [] { MembersAreKept(entries[..|entries| - 1], k); }
  }

  /** Lines that share a key share their container and their template. */
  lemma KeptAreDigested(lines: seq<Line>, i: nat, k: string)
    requires i < |lines| && k == DigestAll(lines)[i].key
    ensures forall m :: m in Members(DigestAll(lines)[..i], k) ==>
              m.line.container == lines[i].container && m.line.mined == lines[i].mined
  {
    var entries := DigestAll(lines);
    MembersAreKept(entries[..i], k);
    forall m | m in Members(entries[..i], k)
      ensures m.line.container == lines[i].container && m.line.mined == lines[i].mined
    {
      var j :| 0 <= j < i && entries[j] == m;
      KeyIsInjective(lines[j].container, lines[j].mined, lines[i].container, lines[i].mined);
    }
  }

  // ----- Keys do not collide -----

  lemma {:induction false} DecimalIsInjective(m: nat, n: nat)
    requires Decimal(m) == Decimal(n)
    ensures m == n
    decreases m
  {
    if m < 10 {
      assert Decimal(m)[0] == Decimal(n)[0];
    } else {
      var s := Decimal(m);
      assert s[..|s| - 1] == Decimal(m / 10) == Decimal(n / 10);
      DecimalIsInjective(m / 10, n / 10);
      assert s[|s| - 1] == ('0' as int + m % 10) as char == ('0' as int + n % 10) as char;
    }
  }

  function LastUnderscore(k: string): nat {
    if k == "" || k[|k| - 1] == '_' then if k == "" then 0 else |k| - 1
    else LastUnderscore(k[..|k| - 1])
  }

  lemma {:induction false} LastUnderscoreIs(c: string, digits: string)
    requires forall i :: 0 <= i < |digits| ==> IsDigit(digits[i])
    ensures LastUnderscore(c + "_" + digits) == |c|
    decreases |digits|
  {
    if digits == "" {
      assert c + "_" + digits == c + "_";
    } else {
      var n := |digits| - 1;
      assert (c + "_" + digits)[..|c| + 1 + n] == c + "_" + digits[..n];
      LastUnderscoreIs(c, digits[..n]);
    }
  }

  /** The text after the last underscore of a key is the number, so the key names one container
      and one template. */
  lemma KeyIsInjective(c: string, m: nat, d: string, n: nat)
    requires c + "_" + Decimal(m) == d + "_" + Decimal(n)
    ensures c == d && m == n
  {
    var k := c + "_" + Decimal(m);
    LastUnderscoreIs(c, Decimal(m));
    LastUnderscoreIs(d, Decimal(n));
    assert c == k[..|c|] == d;
    assert Decimal(m) == k[|c| + 1..] == Decimal(n);
    DecimalIsInjective(m, n);
  }

  // ----- Conservation -----

  function TotalCount(order: seq<string>, entries: seq<Entry>): nat {
    if order == [] then 0 else TotalCount(order[..|order| - 1], entries) + |Members(entries, order[|order| - 1])|
  }

  lemma {:induction false} TotalCountStep(order: seq<string>, entries: seq<Entry>)
    requires entries != []
    requires forall i, j :: 0 <= i < j < |order| ==> order[i] != order[j]
    ensures var e := entries[|entries| - 1];
            TotalCount(order, entries) ==
            TotalCount(order, entries[..|entries| - 1]) + (if e.kept && e.key in order then 1 else 0)
    decreases |order|
  {
    if order != [] {
      var n := |order| - 1;
      TotalCountStep(order[..n], entries);
      assert order == order[..n] + [order[n]];
    }
  }

  lemma {:induction false} FirstSeenIsDistinct(entries: seq<Entry>)
    ensures forall i, j :: 0 <= i < j < |FirstSeen(entries)| ==> FirstSeen(entries)[i] != FirstSeen(entries)[j]
    decreases |entries|
  {
    if entries != [] { FirstSeenIsDistinct(entries[..|entries| - 1]); }
  }

  /** No kept line is lost or counted twice: the cluster counts sum to the kept lines. */
  lemma {:induction false} CountsSumToKept(entries: seq<Entry>)
    ensures TotalCount(FirstSeen(entries), entries) == KeptCount(entries)
    decreases |entries|
  {
    if entries != [] {
      var front, e := entries[..|entries| - 1], entries[|entries| - 1];
      CountsSumToKept(front);
      FirstSeenIsDistinct(front);
      TotalCountStep(FirstSeen(front), entries);
      SeenIffMembers(front, e.key);
      if e.kept && e.key !in FirstSeen(front) {
        assert FirstSeen(entries)[..|FirstSeen(front)|] == FirstSeen(front);
      }
    }
  }

  /** The occurrence counts of the clusters, over the dictionary. */
  function OccurrenceCount(order: seq<string>, clusters: map<string, Cluster>): nat
    requires forall k :: k in order ==> k in clusters
  {
    if order == [] then 0
    else OccurrenceCount(order[..|order| - 1], clusters) + clusters[order[|order| - 1]].count
  }

  lemma {:induction false} CountsAreMembers(order: seq<string>, clusters: map<string, Cluster>, entries: seq<Entry>)
    requires Clustered(clusters, entries) && forall k :: k in order ==> k in clusters
    ensures OccurrenceCount(order, clusters) == TotalCount(order, entries)
  {
    if order != [] {
      CountsAreMembers(order[..|order| - 1], clusters, entries);
      assert ClusteredAt(clusters, Members(entries, order[|order| - 1]), order[|order| - 1]);
    }
  }

  /** The clusters that the loop returns, in their order, count each kept line exactly once. */
  lemma ClustersCountKept(lines: seq<Line>, clusters: map<string, Cluster>, order: seq<string>)
    requires Clustered(clusters, DigestAll(lines)) && order == FirstSeen(DigestAll(lines))
    ensures forall k :: k in order <==> k in clusters
    ensures OccurrenceCount(order, clusters) == KeptCount(DigestAll(lines))
  {
    var entries := DigestAll(lines);
    forall k
      ensures k in order <==> k in clusters
    {
      SeenIffMembers(entries, k);
      assert ClusteredAt(clusters, Members(entries, k), k);
    }
    CountsAreMembers(order, clusters, entries);
    CountsSumToKept(entries);
  }

  /** Kept lines are never noise. */
  ghost predicate Digested(entries: seq<Entry>) {
    forall i :: 0 <= i < |entries| ==> (entries[i].kept ==> !entries[i].line.noise)
  }

  lemma {:induction false} MembersAreNotLater(entries: seq<Entry>, k: string)
    requires Digested(entries)
    ensures forall m :: m in Members(entries, k) ==> m.line.time <= LatestOf(entries)
    decreases |entries|
  {
    if entries != [] { MembersAreNotLater(entries[..|entries| - 1], k); }
  }

  /** The time priorities are measured from: the latest log, or the present if there is none. */
  function ReferenceTime(maxLog: nat, now: nat): nat {
    if maxLog != 0 then maxLog else now
  }

  /** The reference time is never before a cluster's latest line, so no age is negative. */
  lemma ReferenceIsNotBefore(lines: seq<Line>, clusters: map<string, Cluster>, k: string, now: nat)
    requires Clustered(clusters, DigestAll(lines)) && k in clusters
    ensures clusters[k].latest <= ReferenceTime(LatestOf(DigestAll(lines)), now)
  {
    var entries := DigestAll(lines);
    assert Digested(entries);
    MembersAreNotLater(entries, k);
    var m :| m in Members(entries, k) && m.line.time == clusters[k].latest;
  }

  // ----- Ranking -----

  datatype Incident = Incident(key: string, priority: real)

  /** The stable sort by descending priority. */
  function Ranked(xs: seq<Incident>): seq<Incident> {
    if xs == [] then [] else Insert(Ranked(xs[..|xs| - 1]), xs[|xs| - 1])
  }

  /** Before the first incident of lower priority. */
  function Insert(sorted: seq<Incident>, x: Incident): (r: seq<Incident>)
    ensures multiset(r) == multiset(sorted) + multiset{x}
  {
    if sorted == [] then [x]
    else if sorted[0].priority < x.priority then [x] + sorted
    else
      assert sorted == [sorted[0]] + sorted[1..];
      [sorted[0]] + Insert(sorted[1..], x)
  }

  predicate Descending(xs: seq<Incident>) {
    forall i, j :: 0 <= i < j < |xs| ==> xs[i].priority >= xs[j].priority
  }

  lemma {:induction false} InsertKeepsOrder(sorted: seq<Incident>, x: Incident)
    requires Descending(sorted)
    ensures Descending(Insert(sorted, x))
    decreases |sorted|
  {
    if sorted != [] && sorted[0].priority >= x.priority {
      InsertKeepsOrder(sorted[1..], x);
      var rest := Insert(sorted[1..], x);
      forall j | 0 <= j < |rest|
        ensures rest[j].priority <= sorted[0].priority
      {
        assert rest[j] in multiset(rest);
        assert rest[j] == x || rest[j] in sorted[1..];
      }
    }
  }

  /** Ranking permutes the incidents into descending priority. */
  lemma {:induction false} RankedIsSorted(xs: seq<Incident>)
    ensures multiset(Ranked(xs)) == multiset(xs) && Descending(Ranked(xs))
    decreases |xs|
  {
    if xs != [] {
      var front := xs[..|xs| - 1];
      assert xs == front + [xs[|xs| - 1]];
      RankedIsSorted(front);
      InsertKeepsOrder(Ranked(front), xs[|xs| - 1]);
    }
  }

  /** `i` is the first of the incidents with the highest priority. */
  ghost predicate HottestAt(xs: seq<Incident>, i: nat) {
    && i < |xs|
    && (forall j :: 0 <= j < |xs| ==> xs[j].priority <= xs[i].priority)
    && (forall j :: 0 <= j < i ==> xs[j].priority < xs[i].priority)
  }

  lemma InsertFirst(sorted: seq<Incident>, x: Incident)
    ensures Insert(sorted, x) != []
    ensures Insert(sorted, x)[0] == if sorted == [] || sorted[0].priority < x.priority then x else sorted[0]
  {
  }

  function HottestIndex(xs: seq<Incident>): (i: nat)
    requires xs != []
    ensures i < |xs|
  {
    var n := |xs| - 1;
    if n == 0 then 0
    else
      var i := HottestIndex(xs[..n]);
      if xs[i].priority < xs[n].priority then n else i
  }

  lemma {:induction false} HottestIndexIsHottest(xs: seq<Incident>)
    requires xs != []
    ensures HottestAt(xs, HottestIndex(xs))
    decreases |xs|
  {
    if |xs| > 1 { HottestIndexIsHottest(xs[..|xs| - 1]); }
  }

  lemma {:induction false} RankedStartsAtHottest(xs: seq<Incident>)
    requires xs != []
    ensures Ranked(xs) != [] && Ranked(xs)[0] == xs[HottestIndex(xs)]
    decreases |xs|
  {
    var n := |xs| - 1;
    InsertFirst(Ranked(xs[..n]), xs[n]);
    if n > 0 { RankedStartsAtHottest(xs[..n]); }
  }

  /** The incident listed first, which a reader takes by default, has the highest priority and was
      clustered first among those that have it. */
  lemma FirstIsHottest(xs: seq<Incident>) returns (i: nat)
    requires xs != []
    ensures HottestAt(xs, i) && Ranked(xs) != [] && Ranked(xs)[0] == xs[i]
  {
    i := HottestIndex(xs);
    HottestIndexIsHottest(xs);
    RankedStartsAtHottest(xs);
  }
}
