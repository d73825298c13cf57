/**
 What the stitching pass promises: containers do not mix, and the emitted events are the blocks
 of a declarative description that looks at the stream only.
 */
module StitchingBlocks {
  import opened Wrappers
  import opened Text
  import opened Stitching

  // ----- Containers do not mix -----

  /** The events of container `c`. */
  function Only(events: seq<Event>, c: string): seq<Event> {
    if events == [] then []
    else
      var last := events[|events| - 1];
      Only(events[..|events| - 1], c) + (if last.Name() == c then [last] else [])
  }

  lemma OnlyAppend(events: seq<Event>, e: Event, c: string)
    ensures Only(events + [e], c) == Only(events, c) + (if e.Name() == c then [e] else [])
  {
    assert (events + [e])[..|events|] == events;
  }

  lemma {:induction false} OnlyAgrees(a: seq<Event>, b: seq<Event>, c: string)
    requires |a| == |b|
    requires forall k :: 0 <= k < |a| ==> a[k].Name() == b[k].Name() && (a[k].Name() == c ==> a[k] == b[k])
    ensures Only(a, c) == Only(b, c)
    decreases |a|
  {
    if a != [] { OnlyAgrees(a[..|a| - 1], b[..|b| - 1], c); }
  }

  /** Rewriting the last event of `c` rewrites the last event of the restriction. */
  lemma {:induction false} OnlyUpdatesLast(out: seq<Event>, i: nat, x: Event, c: string)
    requires i < |out| && out[i].Name() == c && x.Name() == c
    requires forall k :: i < k < |out| ==> out[k].Name() != c
    ensures Only(out, c) != [] && Only(out, c)[|Only(out, c)| - 1] == out[i]
    ensures Only(out[i := x], c) == Only(out, c)[|Only(out, c)| - 1 := x]
    decreases |out|
  {
    var n := |out| - 1;
    if i < n {
      assert out[i := x][..n] == out[..n][i := x];
      OnlyUpdatesLast(out[..n], i, x, c);
    } else {
      assert out[i := x][..n] == out[..n];
    }
  }

  /** `q` is what the pass `p` looks like to container `c`. */
  ghost predicate SeenBy(p: Pass, q: Pass, c: string) {
    && q.out == Only(p.out, c)
    && (c in q.open <==> c in p.open)
    && (c in p.open ==> q.open[c].text == p.open[c].text)
    && (forall d :: d in q.open ==> d == c)
  }

  lemma OnlyNamesC(events: seq<Event>, c: string)
    ensures forall k :: 0 <= k < |Only(events, c)| ==> Only(events, c)[k].Name() == c
  {
  }

  lemma IndexIsLast(p: Pass, q: Pass, c: string)
    requires Tidy(q) && SeenBy(p, q, c) && c in p.open
    ensures q.open[c].index == |q.out| - 1
  {
    OnlyNamesC(p.out, c);
    assert q.out[|q.out| - 1].Name() == c;
  }

  lemma AbsorbSeenBy(p: Pass, q: Pass, c: string, d: string, raw: string)
    requires Tidy(p) && Tidy(q) && SeenBy(p, q, c) && d in p.open
    ensures SeenBy(Absorb(p, d, raw), if d == c then Absorb(q, c, raw) else q, c)
  {
    if d == c { AbsorbOwnSeenBy(p, q, c, raw); } else { AbsorbOtherSeenBy(p, q, c, d, raw); }
  }

  lemma AbsorbOwnSeenBy(p: Pass, q: Pass, c: string, raw: string)
    requires Tidy(p) && Tidy(q) && SeenBy(p, q, c) && c in p.open
    ensures SeenBy(Absorb(p, c, raw), Absorb(q, c, raw), c)
  {
    var i := p.open[c].index;
    IndexIsLast(p, q, c);
    OnlyUpdatesLast(p.out, i, p.out[i].(content := Some(Cut(p.open[c].text + "\n" + raw, MAX_BLOCK))), c);
  }

  lemma AbsorbOtherSeenBy(p: Pass, q: Pass, c: string, d: string, raw: string)
    requires Tidy(p) && Tidy(q) && SeenBy(p, q, c) && d in p.open && d != c
    ensures SeenBy(Absorb(p, d, raw), q, c)
  {
    var i := p.open[d].index;
    OnlyAgrees(p.out[i := p.out[i].(content := Some(Cut(p.open[d].text + "\n" + raw, MAX_BLOCK)))], p.out, c);
  }

  lemma EmitSeenBy(p: Pass, q: Pass, c: string, e: Event, raw: string, start: bool)
    requires SeenBy(p, q, c)
    ensures SeenBy(Emit(p, e, raw, start), if e.Name() == c then Emit(q, e, raw, start) else q, c)
  {
    OnlyAppend(p.out, e.(content := Some(raw)), c);
  }

  lemma StepSeenBy(p: Pass, q: Pass, c: string, i: Item)
    requires Tidy(p) && Tidy(q) && SeenBy(p, q, c)
    ensures SeenBy(Step(p, i), if i.Name() == c then Step(q, i) else q, c)
  {
    if i.visible {
      if i.Name() in p.open && i.continues {
        AbsorbSeenBy(p, q, c, i.Name(), i.raw);
      } else {
        EmitSeenBy(p, q, c, i.event, i.raw, i.starts);
      }
    }
  }

  function OnlyItems(items: seq<Item>, c: string): seq<Item> {
    if items == [] then []
    else
      var last := items[|items| - 1];
      OnlyItems(items[..|items| - 1], c) + (if last.Name() == c then [last] else [])
  }

  lemma {:induction false} OnlyThenScan(events: seq<Event>, c: string)
    ensures OnlyItems(ScanAll(events), c) == ScanAll(Only(events, c))
    decreases |events|
  {
    if events != [] {
      var front, e := events[..|events| - 1], events[|events| - 1];
      OnlyThenScan(front, c);
      OnlyOneMore(ScanAll(front), Scan(e), c);
      ScanOneMore(Only(front, c), e);
      assert ScanAll(events) == ScanAll(front) + [Scan(e)];
    }
  }

  lemma OnlyOneMore(items: seq<Item>, i: Item, c: string)
    ensures OnlyItems(items + [i], c) == OnlyItems(items, c) + (if i.Name() == c then [i] else [])
  {
    assert (items + [i])[..|items|] == items;
  }

  lemma ScanOneMore(events: seq<Event>, e: Event)
    ensures ScanAll(events + [e]) == ScanAll(events) + [Scan(e)]
  {
  }

  lemma {:induction false} RunSeenBy(items: seq<Item>, c: string)
    ensures SeenBy(Run(items), Run(OnlyItems(items, c)), c)
    decreases |items|
  {
    if items != [] {
      var front, i := items[..|items| - 1], items[|items| - 1];
      RunSeenBy(front, c);
      RunTidy(front);
      RunTidy(OnlyItems(front, c));
      StepSeenBy(Run(front), Run(OnlyItems(front, c)), c, i);
      RunOneMore(OnlyItems(front, c), i);
      assert OnlyItems(items, c) == if i.Name() == c then OnlyItems(front, c) + [i] else OnlyItems(front, c);
    }
  }

  lemma FlushSeenBy(p: Pass, q: Pass, c: string)
    requires Tidy(p) && Tidy(q) && SeenBy(p, q, c)
    ensures Only(Flush(p.out, p.open), c) == Flush(q.out, q.open)
  {
    OnlyNamesC(p.out, c);
    if c in p.open {
      IndexIsLast(p, q, c);
      var i := p.open[c].index;
      var x := FlushAt(p.out, p.open, i);
      OnlyUpdatesLast(p.out, i, x, c);
      OnlyAgrees(Flush(p.out, p.open), p.out[i := x], c);
      assert Flush(q.out, q.open) == q.out[|q.out| - 1 := x];
    } else {
      OnlyAgrees(Flush(p.out, p.open), p.out, c);
      assert Flush(q.out, q.open) == q.out;
    }
  }

  /** For every stream and container, the stitched output restricted to the container is the
      stitching of the stream restricted to it: interleaving never mixes blocks. */
  lemma ContainersDoNotMix(events: seq<Event>, c: string)
    ensures Only(Stitch(events), c) == Stitch(Only(events, c))
  {
    var items := ScanAll(events);
    OnlyThenScan(events, c);
    RunSeenBy(items, c);
    RunTidy(items);
    RunTidy(OnlyItems(items, c));
    FlushSeenBy(Run(items), Run(OnlyItems(items, c)), c);
  }

  // ----- Blocks -----

  predicate Visible(items: seq<Item>, i: nat)
    requires i < |items|
  {
    items[i].visible
  }

  /** The last visible event of container `c` among the first `n`. */
  function LastOf(items: seq<Item>, n: nat, c: string): (r: Option<nat>)
    requires n <= |items|
    ensures r.Some? ==> r.value < n && Visible(items, r.value) && items[r.value].Name() == c
    ensures forall k :: (if r.Some? then r.value + 1 else 0) <= k < n ==> !Visible(items, k) || items[k].Name() != c
  {
    if n == 0 then None
    else if Visible(items, n - 1) && items[n - 1].Name() == c then Some(n - 1)
    else LastOf(items, n - 1, c)
  }

  /** The head of the block that event `i` belongs to: `i` itself unless it continues one. */
  function Home(items: seq<Item>, i: nat): (h: nat)
    requires i < |items| && Visible(items, i)
    ensures h <= i && Visible(items, h) && items[h].Name() == items[i].Name()
    ensures h < i ==> items[h].starts && items[i].continues
    decreases i, 1
  {
    var open := OpenBlock(items, i, items[i].Name());
    if items[i].continues && open.Some? then open.value else i
  }

  /** The block that container `c` can still extend after `n` events: the one of its last event,
      if its head starts an exception. */
  function OpenBlock(items: seq<Item>, n: nat, c: string): (r: Option<nat>)
    requires n <= |items|
    ensures r.Some? ==> r.value < n && Visible(items, r.value) && items[r.value].Name() == c && items[r.value].starts
    decreases n, 0
  {
    var last := LastOf(items, n, c);
    if last.Some? && items[Home(items, last.value)].starts then Some(Home(items, last.value)) else None
  }

  predicate IsHead(items: seq<Item>, i: nat)
    requires i < |items|
  {
    Visible(items, i) && Home(items, i) == i
  }

  predicate BelongsTo(items: seq<Item>, i: nat, h: nat)
    requires i < |items|
  {
    Visible(items, i) && Home(items, i) == h
  }

  function Heads(items: seq<Item>, n: nat): seq<nat>
    requires n <= |items|
  {
    if n == 0 then [] else Heads(items, n - 1) + (if IsHead(items, n - 1) then [n - 1] else [])
  }

  /** The text of block `h` in the first `n` events: its head and all its continuations. */
  function BlockText(items: seq<Item>, n: nat, h: nat): string
    requires h < n <= |items|
  {
    if n == h + 1 then items[h].raw
    else
      var before := BlockText(items, n - 1, h);
      if BelongsTo(items, n - 1, h) then before + "\n" + items[n - 1].raw else before
  }

  /** Some later event was absorbed into block `h`. */
  predicate Extended(items: seq<Item>, n: nat, h: nat)
    requires n <= |items|
  {
    exists i :: h < i < n && BelongsTo(items, i, h)
  }

  /** What the pass has emitted for block `h` after `n` events. */
  function Emitted(items: seq<Item>, n: nat, h: nat): Event
    requires h < n <= |items|
  {
    items[h].event.(content := Some(
      if Extended(items, n, h) then Cut(BlockText(items, n, h), MAX_BLOCK) else items[h].raw))
  }

  /** The final event of block `h`: also cut when it is still open at the end of the stream. */
  function BlockEvent(items: seq<Item>, h: nat): Event
    requires h < |items|
  {
    var n := |items|;
    items[h].event.(content := Some(
      if Extended(items, n, h) || OpenBlock(items, n, items[h].Name()) == Some(h)
      then Cut(BlockText(items, n, h), MAX_BLOCK) else items[h].raw))
  }

  lemma {:induction false} HeadsAreIncreasing(items: seq<Item>, n: nat)
    requires n <= |items|
    ensures forall k :: 0 <= k < |Heads(items, n)| ==> Heads(items, n)[k] < n && IsHead(items, Heads(items, n)[k])
    ensures forall j, k :: 0 <= j < k < |Heads(items, n)| ==> Heads(items, n)[j] < Heads(items, n)[k]
    ensures forall i: nat :: i < n && IsHead(items, i) ==> i in Heads(items, n)
  {
    if n > 0 { HeadsAreIncreasing(items, n - 1); }
  }

  /** After `n` events the pass has emitted the blocks so far. */
  ghost predicate OutAgrees(items: seq<Item>, n: nat, p: Pass)
    requires n <= |items|
  {
    var heads := Heads(items, n);
    && |p.out| == |heads|
    && (forall k :: 0 <= k < |heads| ==> heads[k] < n && p.out[k] == Emitted(items, n, heads[k]))
  }

  /** ... and its open buffers are the blocks that can still grow. */
  ghost predicate OpenAgrees(items: seq<Item>, n: nat, p: Pass)
    requires n <= |items|
  {
    forall c ::
      && (c in p.open <==> OpenBlock(items, n, c).Some?)
      && (c in p.open ==>
            var h := OpenBlock(items, n, c).value;
            && p.open[c].index < |Heads(items, n)| && Heads(items, n)[p.open[c].index] == h
            && p.open[c].text == BlockText(items, n, h))
  }

  ghost predicate Agrees(items: seq<Item>, n: nat, p: Pass)
    requires n <= |items|
  {
    OutAgrees(items, n, p) && OpenAgrees(items, n, p)
  }

  /** An event that joins no existing block leaves every block as it is. */
  lemma OtherBlocksStay(items: seq<Item>, n: nat, h: nat)
    requires h < n < |items| && !BelongsTo(items, n, h)
    ensures Emitted(items, n + 1, h) == Emitted(items, n, h)
    ensures BlockText(items, n + 1, h) == BlockText(items, n, h)
  {
    if Extended(items, n + 1, h) {
      var i :| h < i < n + 1 && BelongsTo(items, i, h);
      assert i < n && Extended(items, n, h);
    }
  }

  lemma OpenBlockOfOthers(items: seq<Item>, n: nat, c: string)
    requires n < |items| && (!Visible(items, n) || items[n].Name() != c)
    ensures OpenBlock(items, n + 1, c) == OpenBlock(items, n, c)
  {
  }

  lemma BlankAgrees(items: seq<Item>, n: nat, p: Pass)
    requires n < |items| && Agrees(items, n, p) && !Visible(items, n)
    ensures Agrees(items, n + 1, p)
  {
    forall h: nat | h < n
      ensures Emitted(items, n + 1, h) == Emitted(items, n, h) && BlockText(items, n + 1, h) == BlockText(items, n, h)
    {
      OtherBlocksStay(items, n, h);
    }
    forall c
      ensures OpenBlock(items, n + 1, c) == OpenBlock(items, n, c)
    {
      OpenBlockOfOthers(items, n, c);
    }
  }

  lemma EmitOutAgrees(items: seq<Item>, n: nat, p: Pass)
    requires n < |items| && OutAgrees(items, n, p) && IsHead(items, n)
    ensures OutAgrees(items, n + 1, Emit(p, items[n].event, items[n].raw, items[n].starts))
  {
    assert Heads(items, n + 1) == Heads(items, n) + [n];
    assert !Extended(items, n + 1, n);
    forall h: nat | h < n
      ensures Emitted(items, n + 1, h) == Emitted(items, n, h)
    {
      OtherBlocksStay(items, n, h);
    }
  }

  lemma EmitOpenAgrees(items: seq<Item>, n: nat, p: Pass)
    requires n < |items| && Agrees(items, n, p) && IsHead(items, n)
    ensures OpenAgrees(items, n + 1, Emit(p, items[n].event, items[n].raw, items[n].starts))
  {
    var p' := Emit(p, items[n].event, items[n].raw, items[n].starts);
    assert Heads(items, n + 1) == Heads(items, n) + [n];
    forall c
      ensures c in p'.open <==> OpenBlock(items, n + 1, c).Some?
      ensures c in p'.open ==>
                var h := OpenBlock(items, n + 1, c).value;
                && p'.open[c].index < |Heads(items, n + 1)| && Heads(items, n + 1)[p'.open[c].index] == h
                && p'.open[c].text == BlockText(items, n + 1, h)
    {
      if c == items[n].Name() {
        assert LastOf(items, n + 1, c) == Some(n);
      } else {
        OpenBlockOfOthers(items, n, c);
        if c in p.open {
          OtherBlocksStay(items, n, OpenBlock(items, n, c).value);
        }
      }
    }
  }

  /** A continuation extends the open block of its container, and only that block. */
  lemma Continuation(items: seq<Item>, n: nat)
    requires n < |items| && items[n].visible && !IsHead(items, n)
    ensures var c := items[n].Name(); var home := Home(items, n);
            && items[n].continues
            && OpenBlock(items, n, c) == Some(home) && OpenBlock(items, n + 1, c) == Some(home)
            && BlockText(items, n + 1, home) == BlockText(items, n, home) + "\n" + items[n].raw
            && Emitted(items, n + 1, home) ==
               items[home].event.(content := Some(Cut(BlockText(items, n, home) + "\n" + items[n].raw, MAX_BLOCK)))
  {
    assert LastOf(items, n + 1, items[n].Name()) == Some(n);
    assert BelongsTo(items, n, Home(items, n));
  }

  lemma AbsorbOutAgrees(items: seq<Item>, n: nat, p: Pass)
    requires n < |items| && Agrees(items, n, p) && items[n].visible && !IsHead(items, n)
    ensures items[n].Name() in p.open && items[n].continues
    ensures OutAgrees(items, n + 1, Absorb(p, items[n].Name(), items[n].raw))
  {
    var c, heads := items[n].Name(), Heads(items, n);
    Continuation(items, n);
    HeadsAreIncreasing(items, n);
    var p' := Absorb(p, c, items[n].raw);
    forall k | 0 <= k < |heads|
      ensures p'.out[k] == Emitted(items, n + 1, heads[k])
    {
      if k != p.open[c].index {
        OtherBlocksStay(items, n, heads[k]);
      }
    }
  }

  lemma AbsorbOpenAgrees(items: seq<Item>, n: nat, p: Pass)
    requires n < |items| && Agrees(items, n, p) && items[n].visible && !IsHead(items, n)
    requires items[n].Name() in p.open
    ensures OpenAgrees(items, n + 1, Absorb(p, items[n].Name(), items[n].raw))
  {
    var p' := Absorb(p, items[n].Name(), items[n].raw);
    Continuation(items, n);
    forall c
      ensures c in p'.open <==> OpenBlock(items, n + 1, c).Some?
      ensures c in p'.open ==>
                var h := OpenBlock(items, n + 1, c).value;
                && p'.open[c].index < |Heads(items, n + 1)| && Heads(items, n + 1)[p'.open[c].index] == h
                && p'.open[c].text == BlockText(items, n + 1, h)
    {
      if c == items[n].Name() { AbsorbedAgrees(items, n, p); } else { NotAbsorbedAgrees(items, n, p, c); }
    }
  }

  lemma AbsorbedAgrees(items: seq<Item>, n: nat, p: Pass)
    requires n < |items| && Agrees(items, n, p) && items[n].visible && !IsHead(items, n)
    requires items[n].Name() in p.open
    ensures var c := items[n].Name(); var p' := Absorb(p, c, items[n].raw);
            && c in p'.open && OpenBlock(items, n + 1, c).Some?
            && var h := OpenBlock(items, n + 1, c).value;
               && p'.open[c].index < |Heads(items, n + 1)| && Heads(items, n + 1)[p'.open[c].index] == h
               && p'.open[c].text == BlockText(items, n + 1, h)
  {
    Continuation(items, n);
  }

  lemma NotAbsorbedAgrees(items: seq<Item>, n: nat, p: Pass, c: string)
    requires n < |items| && Agrees(items, n, p) && items[n].visible && !IsHead(items, n)
    requires items[n].Name() in p.open && c != items[n].Name()
    ensures var p' := Absorb(p, items[n].Name(), items[n].raw);
            && (c in p'.open <==> OpenBlock(items, n + 1, c).Some?)
            && (c in p'.open ==>
                 var h := OpenBlock(items, n + 1, c).value;
                 && p'.open[c].index < |Heads(items, n + 1)| && Heads(items, n + 1)[p'.open[c].index] == h
                 && p'.open[c].text == BlockText(items, n + 1, h))
  {
    OpenBlockOfOthers(items, n, c);
    if c in p.open {
      OtherBlocksStay(items, n, OpenBlock(items, n, c).value);
    }
  }

  lemma {:induction false} RunAgrees(items: seq<Item>, n: nat)
    requires n <= |items|
    ensures Agrees(items, n, Run(items[..n]))
  {
    if n > 0 {
      RunAgrees(items, n - 1);
      assert items[..n][..n - 1] == items[..n - 1];
      var p := Run(items[..n - 1]);
      if !Visible(items, n - 1) {
        BlankAgrees(items, n - 1, p);
      } else if IsHead(items, n - 1) {
        EmitOutAgrees(items, n - 1, p);
        EmitOpenAgrees(items, n - 1, p);
      } else {
        AbsorbOutAgrees(items, n - 1, p);
        AbsorbOpenAgrees(items, n - 1, p);
      }
    }
  }

  /** The block specification: one event per head, in arrival order and with the head's own
      metadata; its content is the head followed by every continuation of its block, joined by
      newlines and cut at 4000 - except that a head that absorbed nothing and was closed by a
      later event is never cut. */
  lemma StitchIsBlocks(events: seq<Event>)
    ensures var items := ScanAll(events); var heads := Heads(items, |items|);
            && |Stitch(events)| == |heads|
            && forall k :: 0 <= k < |heads| ==> heads[k] < |items| && Stitch(events)[k] == BlockEvent(items, heads[k])
  {
    var items := ScanAll(events);
    assert items[..|items|] == items;
    RunAgrees(items, |items|);
    HeadsAreIncreasing(items, |items|);
  }

  /** Every visible event is emitted or absorbed exactly once: it belongs to one block, whose
      head is emitted, is of the same container and arrived no later. */
  lemma EveryEventHasOneBlock(items: seq<Item>, i: nat)
    requires i < |items| && Visible(items, i)
    ensures exists k :: 0 <= k < |Heads(items, |items|)| && Heads(items, |items|)[k] == Home(items, i)
    ensures IsHead(items, Home(items, i)) && Home(items, i) <= i
    ensures items[Home(items, i)].Name() == items[i].Name()
    ensures forall j, k :: 0 <= j < k < |Heads(items, |items|)| ==>
              Heads(items, |items|)[j] != Heads(items, |items|)[k]
  {
    HeadsAreIncreasing(items, |items|);
    HomeIsHead(items, i);
  }

  lemma {:induction false} HomeIsHead(items: seq<Item>, i: nat)
    requires i < |items| && Visible(items, i)
    ensures IsHead(items, Home(items, i))
    decreases i
  {
    if Home(items, i) < i {
      HomeIsHead(items, LastOf(items, i, items[i].Name()).value);
    }
  }
}
