/**
 Entries of the chaos history and the one-time migration of legacy entries.

 An entry is a JSON dictionary; only the keys the code tests or copies are kept, and a key that
 may be missing is an `Option`.  Times and durations are in seconds.
 */
module ChaosEvents {
  import opened Wrappers
  import opened Sequences

  /** A timestamp string: one that parses, or one that `parse_iso_dt` replaces by the present. */
  datatype Stamp = Unreadable | At(seconds: real) {
    function Parse(now: real): real { if At? then seconds else now }
  }

  /** `uuid4` values are fresh: one made by a migration is named by the run and the place it was made. */
  datatype EventId = Given(text: string) | Generated(run: nat, entry: nat, fault: nat)

  datatype Entry =
    | NotADict
    | Dict(
        eventId: Option<EventId>,
        scenarioId: Option<string>,
        faultName: string,
        target: string,
        startTs: Option<Stamp>,
        endTs: Option<Stamp>,
        durationS: real,
        status: Option<string>,
        timestamp: Option<Stamp>,       // legacy
        faults: Option<seq<string>>,    // legacy; an absent list and null differ
        targetServices: seq<string>,    // legacy; missing and null read as []
        duration: real)                 // legacy
  {
    predicate Unified() { Dict? && startTs.Some? && endTs.Some? }

    predicate Legacy() { Dict? && !Unified() && timestamp.Some? && faults.Some? }
  }

  /** One run of the migration: its clock and its identity. */
  datatype Migration = Migration(now: real, run: nat)

  function OrUnknown(names: seq<string>): seq<string> {
    if names == [] then ["unknown"] else names
  }

  /** The unified event for fault number `k` of legacy entry number `i`. */
  function UnifiedEvent(m: Migration, i: nat, e: Entry, k: nat): Entry
    requires e.Legacy() && k < |OrUnknown(e.faults.value)|
  {
    var start := e.timestamp.value.Parse(m.now);
    var targets := OrUnknown(e.targetServices);
    Dict(Some(Generated(m.run, i, k)),
         Some(e.scenarioId.GetOr("legacy")),
         OrUnknown(e.faults.value)[k],
         if k < |targets| then targets[k] else targets[|targets| - 1],
         Some(At(start)),
         Some(At(start + e.duration)),
         e.duration,
         Some(if e.status.GetOr("completed") in {"completed", "recovered"} then "recovered" else "injected"),
         None, None, [], 0.0)
  }

  /** What entry number `i` becomes. */
  function Block(m: Migration, i: nat, e: Entry): seq<Entry> {
    if e.NotADict? then []
    else if !e.Legacy() then [e]
    else seq(|OrUnknown(e.faults.value)|, k requires 0 <= k < |OrUnknown(e.faults.value)| => UnifiedEvent(m, i, e, k))
  }

  function Migrated(m: Migration, h: seq<Entry>): seq<Entry> {
    if h == [] then [] else Migrated(m, h[..|h| - 1]) + Block(m, |h| - 1, h[|h| - 1])
  }

  function LegacyCount(h: seq<Entry>): nat {
    if h == [] then 0 else LegacyCount(h[..|h| - 1]) + (if h[|h| - 1].Legacy() then 1 else 0)
  }

  lemma OneMore(m: Migration, h: seq<Entry>, i: nat)
    requires i < |h|
    ensures Migrated(m, h[..i + 1]) == Migrated(m, h[..i]) + Block(m, i, h[i])
    ensures LegacyCount(h[..i + 1]) == LegacyCount(h[..i]) + (if h[i].Legacy() then 1 else 0)
  {
    assert h[..i + 1][..i] == h[..i];
  }

  /** The migration loop of `migrate_legacy_chaos_history`, on the list it read. */
  method MigrateEntries(m: Migration, history: seq<Entry>) returns (migrated: seq<Entry>, legacyCount: nat)
    ensures migrated == Migrated(m, history)
    ensures legacyCount == LegacyCount(history)
  {
    migrated, legacyCount := [], 0;
    for i := 0 to |history|
      invariant migrated == Migrated(m, history[..i])
      invariant legacyCount == LegacyCount(history[..i])
    {
      OneMore(m, history, i);
      var entry := history[i];
      if entry.NotADict? {
        continue;
      }
      if entry.startTs.Some? && entry.endTs.Some? {
        migrated := migrated + [entry];
        continue;
      }
      if entry.timestamp.None? || entry.faults.None? {
        migrated := migrated + [entry];
        continue;
      }
      legacyCount := legacyCount + 1;
      migrated := MigrateFaults(m, i, entry, migrated);
    }
    assert history[..|history|] == history;
  }

  /** The inner loop: one unified event per fault is appended to `migrated`. */
  method MigrateFaults(m: Migration, i: nat, entry: Entry, migrated: seq<Entry>) returns (r: seq<Entry>)
    requires entry.Legacy()
    ensures r == migrated + Block(m, i, entry)
  {
    r := migrated;
    ghost var block := Block(m, i, entry);
    var n := |OrUnknown(entry.faults.value)|;
    for k := 0 to n
      invariant r == migrated + block[..k]
    {
      assert block[..k + 1] == block[..k] + [block[k]];
      r := r + [UnifiedEvent(m, i, entry, k)];
    }
    assert block[..n] == block;
  }

  // ----- What the migration promises -----

  /** How many entries an entry is replaced by. */
  function Width(e: Entry): nat {
    if e.NotADict? then 0
    else if e.Legacy() && |e.faults.value| > 1 then |e.faults.value|
    else 1
  }

  function Offset(h: seq<Entry>, i: nat): nat
    requires i <= |h|
  {
    if i == 0 then 0 else Offset(h, i - 1) + Width(h[i - 1])
  }

  lemma {:induction false} MigratedSize(m: Migration, h: seq<Entry>, i: nat)
    requires i <= |h|
    ensures |Migrated(m, h[..i])| == Offset(h, i)
  {
    if i > 0 {
      MigratedSize(m, h, i - 1);
      OneMore(m, h, i - 1);
      assert |Block(m, i - 1, h[i - 1])| == Width(h[i - 1]);
    }
  }

  lemma {:induction false} MigratedExtends(m: Migration, h: seq<Entry>, i: nat, n: nat)
    requires i <= n <= |h|
    ensures Migrated(m, h[..i]) <= Migrated(m, h[..n])
    decreases n
  {
    if i < n {
      MigratedExtends(m, h, i, n - 1);
      OneMore(m, h, n - 1);
    }
  }

  /** Order and size: what entry `i` becomes has the width of the entry and starts right after
      what the entries before it became, and nothing else is in the migrated list. */
  lemma MigratedPlacesEveryEntry(m: Migration, h: seq<Entry>, i: nat)
    requires i < |h|
    ensures |Migrated(m, h)| == Offset(h, |h|)
    ensures |Block(m, i, h[i])| == Width(h[i]) && Placed(Migrated(m, h), Offset(h, i), Block(m, i, h[i]))
  {
    WholeSize(m, h);
    MigratedSize(m, h, i);
    BlockIsNext(m, h, i);
    SliceAfter(Migrated(m, h[..i]), Block(m, i, h[i]), Migrated(m, h));
  }

  /** The event for fault number `k` of the legacy entry `e`, which is entry number `i`. */
  predicate IsEventOf(event: Entry, m: Migration, i: nat, e: Entry, k: nat)
    requires e.Legacy() && k < (if e.faults.value == [] then 1 else |e.faults.value|)
  {
    var targets := e.targetServices;
    var start := if e.timestamp.value.At? then e.timestamp.value.seconds else m.now;
    && event.Dict?
    && event.faultName == (if e.faults.value == [] then "unknown" else e.faults.value[k])
    && event.target == (if targets == [] then "unknown" else if k < |targets| then targets[k] else targets[|targets| - 1])
    && event.scenarioId == (if e.scenarioId.None? then Some("legacy") else e.scenarioId)
    && event.startTs == Some(At(start)) && event.endTs == Some(At(start + e.duration))
    && event.durationS == e.duration
    && event.status == Some(if e.status in {None, Some("completed"), Some("recovered")} then "recovered" else "injected")
    && event.eventId == Some(Generated(m.run, i, k)) && event.timestamp.None? && event.faults.None?
  }

  lemma UnifiedIsEventOf(m: Migration, i: nat, e: Entry, k: nat)
    requires e.Legacy() && k < (if e.faults.value == [] then 1 else |e.faults.value|)
    ensures IsEventOf(UnifiedEvent(m, i, e, k), m, i, e, k)
  {
  }

  /** What becomes of every fault of a legacy entry, in the migrated list. */
  lemma LegacyFaultIsUnified(m: Migration, h: seq<Entry>, i: nat, k: nat)
    requires i < |h| && h[i].Legacy() && k < (if h[i].faults.value == [] then 1 else |h[i].faults.value|)
    ensures Offset(h, i) + k < |Migrated(m, h)| && IsEventOf(Migrated(m, h)[Offset(h, i) + k], m, i, h[i], k)
  {
    MigratedPlacesEveryEntry(m, h, i);
    EventOfFault(m, i, h[i], k);
    UnifiedIsEventOf(m, i, h[i], k);
    PlacedAt(Migrated(m, h), Offset(h, i), Block(m, i, h[i]), k);
  }

  lemma EventOfFault(m: Migration, i: nat, e: Entry, k: nat)
    requires e.Legacy() && k < (if e.faults.value == [] then 1 else |e.faults.value|)
    ensures k < |Block(m, i, e)| && Block(m, i, e)[k] == UnifiedEvent(m, i, e, k)
  {
  }

  /** A dictionary in any other format stands unchanged in its place. */
  lemma OtherEntryStays(m: Migration, h: seq<Entry>, i: nat)
    requires i < |h| && h[i].Dict? && !h[i].Legacy()
    ensures Offset(h, i) < |Migrated(m, h)| && Migrated(m, h)[Offset(h, i)] == h[i]
  {
    MigratedPlacesEveryEntry(m, h, i);
    PlacedAt(Migrated(m, h), Offset(h, i), Block(m, i, h[i]), 0);
  }

  lemma PlacedAt<T>(all: seq<T>, offset: nat, block: seq<T>, k: nat)
    requires Placed(all, offset, block) && k < |block|
    ensures offset + k < |all| && all[offset + k] == block[k]
  {
    assert all[offset..offset + |block|][k] == all[offset + k];
  }

  predicate Placed<T(==)>(all: seq<T>, offset: nat, block: seq<T>) {
    offset + |block| <= |all| && all[offset..offset + |block|] == block
  }

  lemma WholeSize(m: Migration, h: seq<Entry>)
    ensures |Migrated(m, h)| == Offset(h, |h|)
  {
    assert h[..|h|] == h;
    MigratedSize(m, h, |h|);
  }

  lemma BlockIsNext(m: Migration, h: seq<Entry>, i: nat)
    requires i < |h|
    ensures Migrated(m, h[..i]) + Block(m, i, h[i]) <= Migrated(m, h)
    ensures |Block(m, i, h[i])| == Width(h[i])
  {
    assert h[..|h|] == h;
    MigratedExtends(m, h, i + 1, |h|);
    OneMore(m, h, i);
  }

  lemma SliceAfter<T>(a: seq<T>, b: seq<T>, all: seq<T>)
    requires a + b <= all
    ensures Placed(all, |a|, b)
  {
    assert all[..|a| + |b|] == a + b;
  }

  lemma BlockIsUnified(m: Migration, i: nat, e: Entry)
    ensures forall b :: b in Block(m, i, e) ==> b.Dict? && !b.Legacy()
  {
  }

  lemma {:induction false} MigratedHasNoLegacy(m: Migration, h: seq<Entry>)
    ensures forall b :: b in Migrated(m, h) ==> b.Dict? && !b.Legacy()
    decreases |h|
  {
    if h != [] {
      MigratedHasNoLegacy(m, h[..|h| - 1]);
      BlockIsUnified(m, |h| - 1, h[|h| - 1]);
    }
  }

  lemma {:induction false} NoLegacyMeansUnchanged(m: Migration, h: seq<Entry>)
    requires forall b :: b in h ==> b.Dict? && !b.Legacy()
    ensures LegacyCount(h) == 0 && Migrated(m, h) == h
    decreases |h|
  {
    if h != [] {
      assert h == h[..|h| - 1] + [h[|h| - 1]];
      NoLegacyMeansUnchanged(m, h[..|h| - 1]);
    }
  }

  /** A second migration finds nothing to do. */
  lemma MigrationIsIdempotent(m: Migration, m': Migration, h: seq<Entry>)
    ensures LegacyCount(Migrated(m, h)) == 0
    ensures Migrated(m', Migrated(m, h)) == Migrated(m, h)
  {
    MigratedHasNoLegacy(m, h);
    NoLegacyMeansUnchanged(m', Migrated(m, h));
  }

  function LegacyPlaces(h: seq<Entry>): set<int> {
    set i | 0 <= i < |h| && h[i].Legacy()
  }

  /** The number a migration reports is the number of legacy entries. */
  lemma {:induction false} LegacyAreCounted(h: seq<Entry>)
    ensures LegacyCount(h) == |LegacyPlaces(h)|
  {
    if h != [] {
      var n := |h| - 1;
      LegacyAreCounted(h[..n]);
      OneMoreIn(LegacyPlaces(h), LegacyPlaces(h[..n]), n, h[n].Legacy());
    }
  }
}
