/**
 Stitching of multi-line stack traces: one pass over an interleaved stream of log events that
 keeps an open buffer per container, aliasing the event already emitted for the block.
 */
module Stitching {
  import opened Wrappers
  import opened Text
  import opened Sequences

  /** The other keys of an event, copied along with it. */
  datatype Meta = Meta(level: string, time: nat, traceId: string)

  datatype Event = Event(container: Option<string>, content: Option<string>, meta: Meta) {
    function Name(): string { container.GetOr("unknown") }
    function Raw(): string { Strip(content.GetOr("")) }
  }

  const MAX_BLOCK: nat := 4000
  const ESC: char := 0x1b as char

  // ----- The regular expressions -----

  predicate IsParameter(c: char) { IsDigit(c) || c == ';' }

  /** Length of `[0-9;]*m` at the start of `t`, or 0. */
  function ParametersThenM(t: string): (n: nat)
    ensures n <= |t|
  {
    if t == "" then 0
    else if t[0] == 'm' then 1
    else if IsParameter(t[0]) && ParametersThenM(t[1..]) > 0 then 1 + ParametersThenM(t[1..])
    else 0
  }

  function RemoveAnsi(t: string): (r: string)
    ensures |r| <= |t|
    decreases |t|
  {
    if t == "" then ""
    else if |t| >= 2 && t[0] == ESC && t[1] == '[' && ParametersThenM(t[2..]) > 0 then
      RemoveAnsi(t[2 + ParametersThenM(t[2..])..])
    else [t[0]] + RemoveAnsi(t[1..])
  }

  /** CONTINUATION_RE, which is anchored at the start. */
  predicate ContinuationText(t: string) {
    var u := LStrip(t);
    (|u| >= 3 && u[0] == 'a' && u[1] == 't' && IsSpace(u[2])) || "..." <= u || "Caused by:" <= u
  }

  /** How many runs of white space `t` has. */
  function SpaceRuns(t: string): nat {
    if t == "" then 0
    else
      var starts := IsSpace(t[|t| - 1]) && (|t| == 1 || !IsSpace(t[|t| - 2]));
      SpaceRuns(t[..|t| - 1]) + (if starts then 1 else 0)
  }

  /** `word` stands at `k` and ends at a word boundary. */
  predicate WordEndsAt(t: string, k: nat, word: string)
    requires k <= |t|
  {
    word <= t[k..] && (k + |word| < |t| ==> !IsWord(t[k + |word|]))
  }

  /** EXCEPTION_START_RE: after at most six words, a token that ends in one of the three names. */
  predicate StartText(t: string) {
    || "Caused by:" <= t
    || (exists k :: 0 <= k <= |t|
          && (WordEndsAt(t, k, "Exception") || WordEndsAt(t, k, "Error") || WordEndsAt(t, k, "Throwable"))
          && (k > 0 ==> !IsSpace(t[0])) && SpaceRuns(t[..k]) <= 6)
  }

  function FirstLine(raw: string): string { Strip(Split(raw)[0]) }

  predicate IsContinuation(raw: string) { ContinuationText(raw) || ContinuationText(FirstLine(raw)) }

  predicate IsStart(raw: string) { StartText(FirstLine(raw)) || StartText(raw) }

  function Clean(e: Event): string { RemoveAnsi(e.Raw()) }

  // ----- The pass on values -----

  /** An open block: where its event was emitted, and its text so far, not cut. */
  datatype Open = Open(index: nat, text: string)

  datatype Pass = Pass(out: seq<Event>, open: map<string, Open>)

  /** A continuation joins the open block of `c`, whose emitted event is overwritten. */
  function Absorb(p: Pass, c: string, raw: string): Pass
    requires c in p.open
  {
    var o := p.open[c];
    var text := o.text + "\n" + raw;
    Pass(if o.index < |p.out| then p.out[o.index := p.out[o.index].(content := Some(Cut(text, MAX_BLOCK)))] else p.out,
         p.open[c := Open(o.index, text)])
  }

  /** Any other event is emitted; it closes the block of its container and may open one. */
  function Emit(p: Pass, e: Event, raw: string, start: bool): Pass {
    Pass(p.out + [e.(content := Some(raw))],
         if start then p.open[e.Name() := Open(|p.out|, raw)] else p.open - {e.Name()})
  }

  /** An event with everything the pass asks about it. */
  datatype Item = Item(event: Event, visible: bool, raw: string, continues: bool, starts: bool) {
    function Name(): string { event.Name() }
  }

  function Scan(e: Event): Item {
    Item(e, e.Raw() != "", Clean(e), IsContinuation(Clean(e)), IsStart(Clean(e)))
  }

  function ScanAll(events: seq<Event>): seq<Item> {
    seq(|events|, i requires 0 <= i < |events| => Scan(events[i]))
  }

  function Step(p: Pass, i: Item): Pass {
    if !i.visible then p
    else if i.Name() in p.open && i.continues then Absorb(p, i.Name(), i.raw)
    else Emit(p, i.event, i.raw, i.starts)
  }

  function Run(items: seq<Item>): Pass {
    if items == [] then Pass([], map[]) else Step(Run(items[..|items| - 1]), items[|items| - 1])
  }

  /** The text the final flush gives to the event emitted at `k`, if a buffer in `open` aliases it. */
  function FlushAt(out: seq<Event>, open: map<string, Open>, k: nat): Event
    requires k < |out|
  {
    var c := out[k].Name();
    if c in open && open[c].index == k then out[k].(content := Some(Cut(open[c].text, MAX_BLOCK))) else out[k]
  }

  function Flush(out: seq<Event>, open: map<string, Open>): (r: seq<Event>)
    ensures |r| == |out|
  {
    seq(|out|, k requires 0 <= k < |out| => FlushAt(out, open, k))
  }

  function Stitch(events: seq<Event>): seq<Event> {
    var p := Run(ScanAll(events));
    Flush(p.out, p.open)
  }

  /** Every open buffer aliases the last event emitted for its container. */
  ghost predicate Tidy(p: Pass) {
    forall c :: c in p.open ==>
      && p.open[c].index < |p.out|
      && p.out[p.open[c].index].Name() == c
      && (forall k :: p.open[c].index < k < |p.out| ==> p.out[k].Name() != c)
  }

  lemma RunOneMore(items: seq<Item>, i: Item)
    ensures Run(items + [i]) == Step(Run(items), i)
  {
    assert (items + [i])[..|items|] == items;
  }

  lemma RunPrefix(items: seq<Item>, i: nat)
    requires i < |items|
    ensures Run(items[..i + 1]) == Step(Run(items[..i]), items[i])
  {
    assert items[..i + 1][..i] == items[..i];
  }

  lemma StepTidy(p: Pass, i: Item)
    requires Tidy(p)
    ensures Tidy(Step(p, i))
  {
  }

  lemma {:induction false} RunTidy(items: seq<Item>)
    ensures Tidy(Run(items))
    decreases |items|
  {
    if items != [] {
      RunTidy(items[..|items| - 1]);
      StepTidy(Run(items[..|items| - 1]), items[|items| - 1]);
    }
  }

  // ----- The pass on objects -----

  /** A decoded event dictionary: only its content is ever assigned. */
  class LogEvent {
    const container: Option<string>
    var content: Option<string>
    const meta: Meta

    constructor (container: Option<string>, content: Option<string>, meta: Meta)
      ensures this.container == container && this.content == content && this.meta == meta
    {
      this.container, this.content, this.meta := container, content, meta;
    }

    ghost function Value(): Event
      reads this
    {
      Event(container, content, meta)
    }
  }

  /** The lines of an open block and the emitted event they belong to. */
  datatype Buffer = Buffer(lines: seq<string>, target: LogEvent)

  ghost function Values(events: seq<LogEvent>): seq<Event>
    reads set e | e in events
  {
    seq(|events|, i requires 0 <= i < |events| reads set e | e in events => events[i].Value())
  }

  /** The buffers are the open blocks of the pass, and alias what it emitted for them. */
  ghost predicate Mirrors(buffers: map<string, Buffer>, stitched: seq<LogEvent>, p: Pass) {
    && buffers.Keys == p.open.Keys
    && (forall c :: c in buffers ==>
          && buffers[c].lines != [] && Join(buffers[c].lines) == p.open[c].text
          && p.open[c].index < |stitched| && buffers[c].target == stitched[p.open[c].index])
  }

  /** What the pass leaves in an input event: its cleaned content. */
  function Rewritten(i: Item): Event {
    if i.visible then i.event.(content := Some(i.raw)) else i.event
  }

  /** `stitch_log_events` on the decoded events.  The input events are rewritten in place, the
      emitted ones are copies, and the buffers alias the emitted ones. */
  method StitchLogEvents(events: seq<LogEvent>) returns (stitched: seq<LogEvent>)
    requires Distinct(events)
    modifies set e | e in events
    ensures forall e :: e in stitched ==> fresh(e)
    ensures Distinct(stitched)
    ensures Values(stitched) == Stitch(old(Values(events)))
    ensures forall i :: 0 <= i < |events| ==> events[i].Value() == Rewritten(ScanAll(old(Values(events)))[i])
  {
    ghost var items := ScanAll(Values(events));
    var buffers: map<string, Buffer>;
    buffers, stitched := RunPass(events);
    RunTidy(items);
    assert forall e :: e in events ==> e !in stitched;
    FlushBuffers(stitched, buffers, Run(items));
  }

  /** The loop over the stream. */
  method RunPass(events: seq<LogEvent>) returns (buffers: map<string, Buffer>, stitched: seq<LogEvent>)
    requires Distinct(events)
    modifies set e | e in events
    ensures forall e :: e in stitched ==> fresh(e)
    ensures Distinct(stitched)
    ensures Values(stitched) == Run(ScanAll(old(Values(events)))).out
    ensures Mirrors(buffers, stitched, Run(ScanAll(old(Values(events)))))
    ensures forall i :: 0 <= i < |events| ==> events[i].Value() == Rewritten(ScanAll(old(Values(events)))[i])
  {
    ghost var input := Values(events);
    ghost var items := ScanAll(input);
    ghost var p := Run(items[..0]);
    buffers, stitched := map[], [];
    for i := 0 to |events|
      invariant forall e :: e in stitched ==> fresh(e)
      invariant Distinct(stitched)
      invariant p == Run(items[..i])
      invariant Values(stitched) == p.out
      invariant Mirrors(buffers, stitched, p)
      invariant forall j :: 0 <= j < i ==> events[j].Value() == Rewritten(items[j])
      invariant forall j :: i <= j < |events| ==> events[j].Value() == input[j]
    {
      RunPrefix(items, i);
      assert forall j :: 0 <= j < |events| ==> events[j] !in stitched;
      buffers, stitched := StitchEvent(events[i], buffers, stitched, p, items[i]);
      p := Step(p, items[i]);
    }
    assert items[..|events|] == items;
  }

  /** The loop body: one event is skipped, absorbed into the open block, or emitted. */
  method StitchEvent(event: LogEvent, buffers: map<string, Buffer>, stitched: seq<LogEvent>, ghost p: Pass, ghost item: Item)
    returns (buffers': map<string, Buffer>, stitched': seq<LogEvent>)
    requires item == Scan(event.Value())
    requires Distinct(stitched) && event !in stitched
    requires Values(stitched) == p.out && Mirrors(buffers, stitched, p)
    modifies event, set e | e in stitched
    ensures forall e :: e in stitched' ==> e in stitched || fresh(e)
    ensures Distinct(stitched')
    ensures Values(stitched') == Step(p, item).out
    ensures Mirrors(buffers', stitched', Step(p, item))
    ensures event.Value() == Rewritten(item)
  {
    var container := event.container.GetOr("unknown");
    var rawContent := Strip(event.content.GetOr(""));
    if rawContent == "" {
      return buffers, stitched;
    }
    rawContent := RemoveAnsi(rawContent);
    event.content := Some(rawContent);
    assert Values(stitched) == p.out;
    if container in buffers && (ContinuationText(rawContent) || ContinuationText(FirstLine(rawContent))) {
      buffers' := AbsorbEvent(container, rawContent, buffers, stitched, p);
      stitched' := stitched;
    } else {
      buffers', stitched' := EmitEvent(event, rawContent, StartText(FirstLine(rawContent)) || StartText(rawContent),
                                       buffers, stitched, p);
    }
  }

  method AbsorbEvent(container: string, raw: string, buffers: map<string, Buffer>, stitched: seq<LogEvent>, ghost p: Pass)
    returns (buffers': map<string, Buffer>)
    requires Distinct(stitched) && container in buffers
    requires Values(stitched) == p.out && Mirrors(buffers, stitched, p)
    modifies set e | e in stitched
    ensures Values(stitched) == Absorb(p, container, raw).out
    ensures Mirrors(buffers', stitched, Absorb(p, container, raw))
  {
    var b := buffers[container];
    var lines := b.lines + Split(raw);
    JoinConcat(b.lines, Split(raw));
    JoinSplit(raw);
    buffers' := buffers[container := Buffer(lines, b.target)];
    WriteBack(stitched, buffers'[container], p.open[container].index);
  }

  method EmitEvent(event: LogEvent, raw: string, start: bool, buffers: map<string, Buffer>, stitched: seq<LogEvent>, ghost p: Pass)
    returns (buffers': map<string, Buffer>, stitched': seq<LogEvent>)
    requires Distinct(stitched) && event.content == Some(raw)
    requires Values(stitched) == p.out && Mirrors(buffers, stitched, p)
    ensures forall e :: e in stitched' ==> e in stitched || fresh(e)
    ensures Distinct(stitched')
    ensures Values(stitched') == Emit(p, event.Value(), raw, start).out
    ensures Mirrors(buffers', stitched', Emit(p, event.Value(), raw, start))
  {
    var container := event.container.GetOr("unknown");
    buffers' := buffers;
    if container in buffers {
      buffers' := buffers - {container};
    }
    var evtDict := new LogEvent(event.container, event.content, event.meta);
    stitched' := stitched + [evtDict];
    assert Values(stitched') == Values(stitched) + [evtDict.Value()];
    if start {
      JoinSplit(raw);
      buffers' := buffers'[container := Buffer(Split(raw), evtDict)];
    }
  }

  lemma FlushOne(p: Pass, left: set<string>, c: string)
    requires Tidy(p) && c in left && c in p.open
    ensures var k := p.open[c].index;
            Flush(p.out, p.open - (left - {c})) ==
            Flush(p.out, p.open - left)[k := p.out[k].(content := Some(Cut(p.open[c].text, MAX_BLOCK)))]
  {
  }

  /** The final flush: every open buffer is written to its event, in any order. */
  method FlushBuffers(stitched: seq<LogEvent>, buffers: map<string, Buffer>, ghost p: Pass)
    requires Distinct(stitched) && Values(stitched) == p.out
    requires Tidy(p) && Mirrors(buffers, stitched, p)
    modifies set e | e in stitched
    ensures Values(stitched) == Flush(p.out, p.open)
  {
    var left := buffers.Keys;
    assert Flush(p.out, p.open - left) == p.out;
    while left != {}
      invariant left <= buffers.Keys
      invariant Values(stitched) == Flush(p.out, p.open - left)
    {
      var c :| c in left;
      FlushOne(p, left, c);
      WriteBack(stitched, buffers[c], p.open[c].index);
      ghost var k := p.open[c].index;
      assert Flush(p.out, p.open - left)[k] == p.out[k];
      left := left - {c};
    }
    assert p.open - {} == p.open;
  }

  method WriteBack(stitched: seq<LogEvent>, b: Buffer, ghost k: nat)
    requires Distinct(stitched) && k < |stitched| && b.target == stitched[k]
    modifies b.target
    ensures Values(stitched) == old(Values(stitched))[k := old(Values(stitched))[k].(content := Some(Cut(Join(b.lines), MAX_BLOCK)))]
  {
    b.target.content := Some(Cut(Join(b.lines), MAX_BLOCK));
  }
}
