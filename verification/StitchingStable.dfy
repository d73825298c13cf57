/**
 Stitching twice is stitching once, on streams without escape characters whose blocks fit in the
 4000-character limit.  This is where the two regular expressions matter: growing a block by a
 line must not change what they say about it.
 */
module StitchingStable {
  import opened Wrappers
  import opened Text
  import opened Stitching
  import opened StitchingBlocks

  // ----- The regular expressions on growing text -----

  lemma StartTextStays(t: string, u: string)
    requires StartText(t)
    ensures StartText(t + "\n" + u)
  {
    var all := t + "\n" + u;
    if !("Caused by:" <= t) {
      var k :| 0 <= k <= |t|
        && (WordEndsAt(t, k, "Exception") || WordEndsAt(t, k, "Error") || WordEndsAt(t, k, "Throwable"))
        && (k > 0 ==> !IsSpace(t[0])) && SpaceRuns(t[..k]) <= 6;
      assert all[..k] == t[..k];
      WordStays(t, u, k, "Exception");
      WordStays(t, u, k, "Error");
      WordStays(t, u, k, "Throwable");
    }
  }

  lemma WordStays(t: string, u: string, k: nat, word: string)
    requires k <= |t|
    ensures WordEndsAt(t, k, word) ==> WordEndsAt(t + "\n" + u, k, word)
  {
    var all := t + "\n" + u;
    assert all[k..] == t[k..] + ("\n" + u);
    if WordEndsAt(t, k, word) {
      assert word <= t[k..] <= all[k..];
      assert k + |word| == |t| ==> all[k + |word|] == '\n';
    }
  }

  lemma StartTextIsLong(t: string)
    requires StartText(t)
    ensures |t| >= 5
  {
  }

  lemma {:induction false} FirstLineIsShorter(t: string)
    ensures |Split(t)[0]| <= |t|
    decreases |t|
  {
    if t != "" { FirstLineIsShorter(t[1..]); }
  }

  lemma StripIsShorter(t: string)
    ensures |Strip(t)| <= |t|
  {
  }

  lemma StartIsLong(t: string)
    requires IsStart(t)
    ensures |t| >= 5
  {
    FirstLineIsShorter(t);
    StripIsShorter(Split(t)[0]);
    if StartText(t) { StartTextIsLong(t); } else { StartTextIsLong(FirstLine(t)); }
  }

  lemma ContinuationTextStays(t: string, u: string)
    requires |t| >= 5 && !IsSpace(t[0]) && !ContinuationText(t)
    ensures !ContinuationText(t + "\n" + u)
  {
    var all := t + "\n" + u;
    assert LStrip(t) == t && LStrip(all) == all;
    assert all[|t|] == '\n';
  }

  /** What appending a line keeps of the head of an exception. */
  lemma HeadGrows(t: string, u: string)
    requires t != "" && !IsSpace(t[0]) && IsStart(t)
    ensures IsStart(t + "\n" + u)
    ensures !IsContinuation(t) ==> !IsContinuation(t + "\n" + u)
  {
    FirstLineStays(t, u);
    StartIsLong(t);
    if StartText(t) { StartTextStays(t, u); }
    if !IsContinuation(t) { ContinuationTextStays(t, u); }
  }

  // ----- Streams without escapes -----

  predicate EscapeFree(t: string) { forall i :: 0 <= i < |t| ==> t[i] != ESC }

  predicate AnsiFree(events: seq<Event>) {
    forall i :: 0 <= i < |events| ==> EscapeFree(events[i].content.GetOr(""))
  }

  lemma {:induction false} NothingToRemove(t: string)
    requires EscapeFree(t)
    ensures RemoveAnsi(t) == t
    decreases |t|
  {
    if t != "" { NothingToRemove(t[1..]); }
  }

  lemma {:induction false} LStripEscapeFree(t: string)
    requires EscapeFree(t)
    ensures EscapeFree(LStrip(t))
    decreases |t|
  {
    if t != "" && IsSpace(t[0]) { LStripEscapeFree(t[1..]); }
  }

  lemma StripEscapeFree(t: string)
    requires EscapeFree(t)
    ensures EscapeFree(Strip(t))
  {
    LStripEscapeFree(t);
  }

  /** A stretch of clean text: stripped, not empty and without escapes. */
  predicate Plain(t: string) { t != "" && Stripped(t) && EscapeFree(t) }

  lemma RawIsPlain(e: Event)
    requires EscapeFree(e.content.GetOr("")) && Scan(e).visible
    ensures Plain(Scan(e).raw)
  {
    StripEscapeFree(e.content.GetOr(""));
    NothingToRemove(e.Raw());
  }

  lemma ScanPlain(e: Event, t: string)
    requires e.content == Some(t) && Plain(t)
    ensures Scan(e) == Item(e, true, t, IsContinuation(t), IsStart(t))
  {
    StrippedStays(t);
    NothingToRemove(t);
  }

  /** The items of a plain stream. */
  ghost predicate PlainItems(items: seq<Item>) {
    forall i :: 0 <= i < |items| ==> PlainItem(items[i])
  }

  ghost predicate PlainItem(i: Item) {
    i.visible ==> Plain(i.raw) && i.continues == IsContinuation(i.raw) && i.starts == IsStart(i.raw)
  }

  lemma ItemsArePlain(events: seq<Event>)
    requires AnsiFree(events)
    ensures PlainItems(ScanAll(events))
  {
    forall i | 0 <= i < |events|
      ensures PlainItem(ScanAll(events)[i])
    {
      if Scan(events[i]).visible { RawIsPlain(events[i]); }
    }
  }

  /** A block text that reads like its head: plain, and with the head's answers from the regular
      expressions as far as the second pass needs them. */
  ghost predicate ReadsLike(t: string, head: Item) {
    && Plain(t)
    && (if head.starts then IsStart(t) && (!head.continues ==> !IsContinuation(t)) else t == head.raw)
  }

  lemma PlainJoin(t: string, u: string)
    requires Plain(t) && Plain(u)
    ensures Plain(t + "\n" + u)
  {
  }

  lemma ReadsLikeGrows(t: string, head: Item, u: string)
    requires ReadsLike(t, head) && head.starts && Plain(u)
    ensures ReadsLike(t + "\n" + u, head)
  {
    PlainJoin(t, u);
    HeadGrows(t, u);
  }

  lemma HeadReadsLikeItself(head: Item)
    requires PlainItem(head) && head.visible
    ensures ReadsLike(head.raw, head)
  {
  }

  lemma {:induction false} BlockReadsLikeHead(items: seq<Item>, n: nat, h: nat)
    requires PlainItems(items) && h < n <= |items| && IsHead(items, h)
    ensures ReadsLike(BlockText(items, n, h), items[h])
    decreases n
  {
    assert PlainItem(items[h]);
    if n == h + 1 {
      HeadReadsLikeItself(items[h]);
    } else {
      BlockReadsLikeHead(items, n - 1, h);
      assert PlainItem(items[n - 1]);
      if BelongsTo(items, n - 1, h) {
        ReadsLikeGrows(BlockText(items, n - 1, h), items[h], items[n - 1].raw);
      }
    }
  }

  lemma {:induction false} AloneMeansHeadOnly(items: seq<Item>, n: nat, h: nat)
    requires h < n <= |items| && !Extended(items, n, h)
    ensures BlockText(items, n, h) == items[h].raw
    decreases n
  {
    if n > h + 1 {
      assert !BelongsTo(items, n - 1, h);
      assert Extended(items, n - 1, h) ==> Extended(items, n, h);
      AloneMeansHeadOnly(items, n - 1, h);
    }
  }

  // ----- The second pass -----

  /** Every block that can be cut fits in the limit. */
  predicate Fits(items: seq<Item>) {
    forall h :: 0 <= h < |items| && IsHead(items, h) && items[h].starts ==> |BlockText(items, |items|, h)| <= MAX_BLOCK
  }

  /** Item `k` of the second pass is the block of head number `k` of the first. */
  ghost predicate Rescans(items: seq<Item>, again: seq<Item>) {
    var heads := Heads(items, |items|);
    && |again| == |heads|
    && forall k :: 0 <= k < |again| ==> RescanOf(items, again[k], heads[k])
  }

  ghost predicate RescanOf(items: seq<Item>, i: Item, h: nat) {
    && h < |items|
    && i.visible && i.Name() == items[h].Name() && i.event.content == Some(i.raw)
    && i.starts == items[h].starts && (i.continues ==> items[h].continues)
    && (i.starts ==> |i.raw| <= MAX_BLOCK)
  }

  lemma BlockEventFits(items: seq<Item>, h: nat)
    requires Fits(items) && h < |items| && IsHead(items, h)
    ensures BlockEvent(items, h) == items[h].event.(content := Some(BlockText(items, |items|, h)))
    ensures Emitted(items, |items|, h) == BlockEvent(items, h)
  {
    var n := |items|;
    if Extended(items, n, h) {
      var i :| h < i < n && BelongsTo(items, i, h);
      assert items[h].starts;
    } else {
      AloneMeansHeadOnly(items, n, h);
    }
  }

  lemma RescanBlock(items: seq<Item>, h: nat)
    requires PlainItems(items) && Fits(items) && h < |items| && IsHead(items, h)
    ensures RescanOf(items, Scan(BlockEvent(items, h)), h)
  {
    var t := BlockText(items, |items|, h);
    assert PlainItem(items[h]);
    BlockEventFits(items, h);
    BlockReadsLikeHead(items, |items|, h);
    ScanPlain(BlockEvent(items, h), t);
  }

  lemma RescanStitched(events: seq<Event>)
    requires AnsiFree(events) && Fits(ScanAll(events))
    ensures Rescans(ScanAll(events), ScanAll(Stitch(events)))
  {
    var items, out := ScanAll(events), Stitch(events);
    var heads := Heads(items, |items|);
    ItemsArePlain(events);
    StitchIsBlocks(events);
    HeadsAreIncreasing(items, |items|);
    forall k | 0 <= k < |out|
      ensures RescanOf(items, ScanAll(out)[k], heads[k])
    {
      assert IsHead(items, heads[k]);
      RescanBlock(items, heads[k]);
    }
  }

  /** Between an event and the head of its block there is no other head of its container. */
  lemma {:induction false} NoHeadBetween(items: seq<Item>, i: nat, h: nat)
    requires i < |items| && items[i].visible && Home(items, i) < h <= i && items[h].Name() == items[i].Name()
    ensures !IsHead(items, h)
    decreases i
  {
    var p := LastOf(items, i, items[i].Name()).value;
    if h < i && items[h].visible { NoHeadBetween(items, p, h); }
  }

  /** The last visible event of a container before a head lies in the block of the container's
      previous head. */
  lemma PreviousBlock(items: seq<Item>, g: nat, h: nat)
    requires g < h < |items| && IsHead(items, g) && items[g].Name() == items[h].Name()
    requires forall m :: g < m < h && IsHead(items, m) ==> items[m].Name() != items[h].Name()
    ensures LastOf(items, h, items[h].Name()).Some?
    ensures Home(items, LastOf(items, h, items[h].Name()).value) == g
  {
    var i := LastOf(items, h, items[h].Name()).value;
    HomeIsHead(items, i);
    if Home(items, i) < g { NoHeadBetween(items, i, g); }
  }

  /** Heads between two blocks of a container that follow each other are of other containers. */
  lemma NoBlockBetween(items: seq<Item>, again: seq<Item>, j: nat, k: nat, m: nat)
    requires Rescans(items, again) && j < k < |again|
    requires LastOf(again, k, again[k].Name()) == Some(j)
    requires m < |items| && Heads(items, |items|)[j] < m < Heads(items, |items|)[k] && IsHead(items, m)
    ensures items[m].Name() != again[k].Name()
  {
    var heads := Heads(items, |items|);
    HeadsAreIncreasing(items, |items|);
    var l := PlaceBetween(heads, j, k, m);
    assert RescanOf(items, again[l], heads[l]);
    OtherName(again, j, k, l);
  }

  lemma PlaceBetween(heads: seq<nat>, j: nat, k: nat, m: nat) returns (l: nat)
    requires j < k < |heads| && m in heads && heads[j] < m < heads[k]
    requires forall a, b :: 0 <= a < b < |heads| ==> heads[a] < heads[b]
    ensures j < l < k && heads[l] == m
  {
    l :| l < |heads| && heads[l] == m;
  }

  lemma OtherName(again: seq<Item>, j: nat, k: nat, l: nat)
    requires j < l < k < |again| && LastOf(again, k, again[k].Name()) == Some(j) && again[l].visible
    ensures again[l].Name() != again[k].Name()
  {
    assert Visible(again, l);
  }

  /** The block open before head number `k` in the first pass starts like the block before it in
      the second. */
  lemma OpenInFirstPass(items: seq<Item>, again: seq<Item>, j: nat, k: nat)
    requires Rescans(items, again) && j < k < |again|
    requires LastOf(again, k, again[k].Name()) == Some(j)
    ensures var h := Heads(items, |items|)[k];
            h < |items| && (again[j].starts ==> OpenBlock(items, h, items[h].Name()).Some?)
  {
    var heads := Heads(items, |items|);
    HeadsAreIncreasing(items, |items|);
    assert RescanOf(items, again[k], heads[k]) && RescanOf(items, again[j], heads[j]);
    forall m | heads[j] < m < heads[k] && IsHead(items, m)
      ensures items[m].Name() != items[heads[k]].Name()
    {
      NoBlockBetween(items, again, j, k, m);
    }
    PreviousBlock(items, heads[j], heads[k]);
  }

  lemma {:induction false} EveryBlockIsAHead(items: seq<Item>, again: seq<Item>, k: nat)
    requires Rescans(items, again) && k < |again|
    ensures IsHead(again, k)
    decreases k
  {
    var heads := Heads(items, |items|);
    HeadsAreIncreasing(items, |items|);
    assert RescanOf(items, again[k], heads[k]);
    assert IsHead(items, heads[k]);
    var last := LastOf(again, k, again[k].Name());
    if last.Some? {
      EveryBlockIsAHead(items, again, last.value);
      OpenInFirstPass(items, again, last.value, k);
    }
  }

  lemma {:induction false} HeadsWhenAll(again: seq<Item>, n: nat)
    requires n <= |again| && forall k :: 0 <= k < n ==> IsHead(again, k)
    ensures |Heads(again, n)| == n && forall k :: 0 <= k < n ==> Heads(again, n)[k] == k
  {
    if n > 0 { HeadsWhenAll(again, n - 1); }
  }

  /** On streams without escapes whose blocks fit in the limit, the final flush changes nothing
      and stitching the output again gives the same output. */
  lemma StitchingIsIdempotent(events: seq<Event>)
    requires AnsiFree(events) && Fits(ScanAll(events))
    ensures Stitch(events) == Run(ScanAll(events)).out
    ensures Stitch(Stitch(events)) == Stitch(events)
  {
    FlushChangesNothing(events);
    var items, out := ScanAll(events), Stitch(events);
    var again := ScanAll(out);
    RescanStitched(events);
    forall k | 0 <= k < |again|
      ensures IsHead(again, k)
    {
      EveryBlockIsAHead(items, again, k);
    }
    HeadsWhenAll(again, |again|);
    StitchIsBlocks(out);
    forall k | 0 <= k < |again|
      ensures BlockEvent(again, k) == out[k]
    {
      UnchangedBlock(items, again, k);
    }
  }

  lemma UnchangedBlock(items: seq<Item>, again: seq<Item>, k: nat)
    requires Rescans(items, again) && k < |again|
    requires forall j :: 0 <= j < |again| ==> IsHead(again, j)
    ensures BlockEvent(again, k) == again[k].event
  {
    assert RescanOf(items, again[k], Heads(items, |items|)[k]);
    forall i | k < i < |again|
      ensures !BelongsTo(again, i, k)
    {
      assert IsHead(again, i);
    }
    AloneMeansHeadOnly(again, |again|, k);
  }

  lemma FlushChangesNothing(events: seq<Event>)
    requires Fits(ScanAll(events))
    ensures Stitch(events) == Run(ScanAll(events)).out
  {
    var items := ScanAll(events);
    var heads := Heads(items, |items|);
    assert items[..|items|] == items;
    RunAgrees(items, |items|);
    HeadsAreIncreasing(items, |items|);
    StitchIsBlocks(events);
    forall k | 0 <= k < |heads|
      ensures BlockEvent(items, heads[k]) == Emitted(items, |items|, heads[k])
    {
      BlockEventFits(items, heads[k]);
    }
  }

  /** A block the final flush cuts: a head that is still open at the end of the stream, absorbed
      nothing, and is longer than the limit. */
  ghost predicate CutByFlush(items: seq<Item>, h: nat)
    requires h < |items|
  {
    var n := |items|;
    IsHead(items, h) && !Extended(items, n, h)
    && OpenBlock(items, n, items[h].Name()) == Some(h) && |items[h].raw| > MAX_BLOCK
  }

  lemma CutByFlushIff(items: seq<Item>, h: nat)
    requires h < |items| && IsHead(items, h)
    ensures CutByFlush(items, h) <==> BlockEvent(items, h) != Emitted(items, |items|, h)
  {
    if !Extended(items, |items|, h) { AloneMeansHeadOnly(items, |items|, h); }
  }

  lemma FlushDiffers(items: seq<Item>, out: seq<Event>, stitched: seq<Event>)
    requires OutAgrees(items, |items|, Pass(out, map[]))
    requires |stitched| == |out|
    requires forall k :: 0 <= k < |out| ==> stitched[k] == BlockEvent(items, Heads(items, |items|)[k])
    ensures stitched != out <==> exists h :: 0 <= h < |items| && CutByFlush(items, h)
  {
    var heads := Heads(items, |items|);
    HeadsAreIncreasing(items, |items|);
    forall k | 0 <= k < |out|
      ensures stitched[k] != out[k] <==> CutByFlush(items, heads[k])
    {
      CutByFlushIff(items, heads[k]);
    }
    if h: nat :| h < |items| && CutByFlush(items, h) {
      var k :| 0 <= k < |heads| && heads[k] == h;
      assert stitched[k] != out[k];
    }
  }

  /** Exactly when the final flush matters.  The same head, once closed by another event of its
      container, is not cut. */
  lemma FlushMattersIff(events: seq<Event>)
    ensures Stitch(events) != Run(ScanAll(events)).out
       <==> exists h :: 0 <= h < |events| && CutByFlush(ScanAll(events), h)
  {
    var items := ScanAll(events);
    assert items[..|items|] == items;
    RunAgrees(items, |items|);
    StitchIsBlocks(events);
    FlushDiffers(items, Run(items).out, Stitch(events));
  }
}
