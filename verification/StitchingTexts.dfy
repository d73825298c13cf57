/** What the expressions of the stitcher match, in terms of how a text is made up. */
module StitchingTexts {
  import opened Text
  import opened Sequences
  import opened Stitching

  // ----- Escape sequences -----

  lemma {:induction false} ParametersAre(params: string, b: string)
    requires forall i | 0 <= i < |params| :: IsDigit(params[i]) || params[i] == ';'
    ensures ParametersThenM(params + "m" + b) == |params| + 1
    decreases |params|
  {
    if params == "" {
      assert params + "m" + b == "m" + b;
    } else {
      assert (params + "m" + b)[1..] == params[1..] + "m" + b;
      ParametersAre(params[1..], b);
    }
  }

  lemma SequenceAtStart(params: string, b: string)
    requires forall i | 0 <= i < |params| :: IsDigit(params[i]) || params[i] == ';'
    ensures RemoveAnsi([ESC, '['] + params + "m" + b) == RemoveAnsi(b)
  {
    var t := [ESC, '['] + params + "m" + b;
    assert t[2..] == params + "m" + b;
    ParametersAre(params, b);
    assert t[2 + |params| + 1..] == b;
  }

  lemma OtherStays(t: string)
    requires t != "" && t[0] != ESC
    ensures RemoveAnsi(t) == [t[0]] + RemoveAnsi(t[1..])
  {
  }

  /** A sequence of escape, bracket, digits and semicolons, and "m" disappears, and the text in front
      of it stays. */
  lemma {:induction false} SequenceIsRemoved(a: string, params: string, b: string)
    requires ESC !in a && forall i | 0 <= i < |params| :: IsDigit(params[i]) || params[i] == ';'
    ensures RemoveAnsi(a + [ESC, '['] + params + "m" + b) == a + RemoveAnsi(b)
    decreases |a|
  {
    var t := a + [ESC, '['] + params + "m" + b;
    if a == "" {
      assert t == [ESC, '['] + params + "m" + b;
      SequenceAtStart(params, b);
    } else {
      assert t[0] == a[0] && t[1..] == a[1..] + [ESC, '['] + params + "m" + b;
      OtherStays(t);
      SequenceIsRemoved(a[1..], params, b);
    }
  }

  // ----- Continuations -----

  predicate AtSpaceDotsOrCause(u: string) {
    (|u| > 2 && u[..2] == "at" && IsSpace(u[2])) || "..." <= u || "Caused by:" <= u
  }

  lemma {:induction false} SplitAtSpaces(t: string) returns (s: string)
    ensures AllSpace(s) && t == s + LStrip(t)
  {
    if t != "" && IsSpace(t[0]) {
      var rest := SplitAtSpaces(t[1..]);
      s := [t[0]] + rest;
    } else {
      s := "";
    }
  }

  lemma StartsVisibly(u: string)
    requires AtSpaceDotsOrCause(u)
    ensures u != "" && !IsSpace(u[0])
  {
  }

  /** A continuation is, after white space, "at" and a space, three dots, or a cause. */
  lemma ContinuationIff(t: string)
    ensures ContinuationText(t) <==> exists s, u :: t == s + u && AllSpace(s) && AtSpaceDotsOrCause(u)
  {
    var s := SplitAtSpaces(t);
    var u := LStrip(t);
    assert ContinuationText(t) <==> AtSpaceDotsOrCause(u);
    if s', u' :| t == s' + u' && AllSpace(s') && AtSpaceDotsOrCause(u') {
      StartsVisibly(u');
      LStripSpaces(s', u');
    }
  }

  // ----- Starts of a block -----

  /** A run of white space begins at `i`. */
  predicate BeginsRun(t: string, i: int) {
    0 <= i < |t| && IsSpace(t[i]) && (i == 0 || !IsSpace(t[i - 1]))
  }

  function RunStarts(t: string): set<int> {
    set i | 0 <= i < |t| && BeginsRun(t, i)
  }

  lemma {:induction false} RunsAreCounted(t: string)
    ensures SpaceRuns(t) == |RunStarts(t)|
  {
    if t != "" {
      var n := |t| - 1;
      RunsAreCounted(t[..n]);
      OneMoreIn(RunStarts(t), RunStarts(t[..n]), n, BeginsRun(t, n));
    }
  }

  /** The name of an exception, whole, after at most six words. */
  predicate NamedAfter(head: string, word: string, rest: string) {
    && word in {"Exception", "Error", "Throwable"}
    && (rest == "" || !IsWord(rest[0]))
    && (head == "" || !IsSpace(head[0])) && |RunStarts(head)| <= 6
  }

  predicate NameAt(t: string, k: nat, word: string) {
    && word in {"Exception", "Error", "Throwable"} && k <= |t| && WordEndsAt(t, k, word)
    && (k > 0 ==> !IsSpace(t[0])) && SpaceRuns(t[..k]) <= 6
  }

  lemma NameAtStarts(t: string, k: nat, word: string)
    requires NameAt(t, k, word)
    ensures StartText(t)
  {
  }

  lemma NameAtIff(t: string)
    ensures StartText(t) <==> "Caused by:" <= t || exists k: nat, word :: NameAt(t, k, word)
  {
    if k: nat, word :| NameAt(t, k, word) {
      NameAtStarts(t, k, word);
    }
    if StartText(t) && !("Caused by:" <= t) {
      var k :| 0 <= k <= |t|
        && (WordEndsAt(t, k, "Exception") || WordEndsAt(t, k, "Error") || WordEndsAt(t, k, "Throwable"))
        && (k > 0 ==> !IsSpace(t[0])) && SpaceRuns(t[..k]) <= 6;
      assert NameAt(t, k, "Exception") || NameAt(t, k, "Error") || NameAt(t, k, "Throwable");
    }
  }

  lemma NamedAfterIsAt(t: string, head: string, word: string, rest: string)
    requires t == head + word + rest && NamedAfter(head, word, rest)
    ensures NameAt(t, |head|, word)
  {
    var k := |head|;
    assert t[..k] == head && t[k..] == word + rest;
    assert k + |word| < |t| ==> t[k + |word|] == rest[0];
    RunsAreCounted(head);
  }

  lemma NameAtIsAfter(t: string, k: nat, word: string)
    requires NameAt(t, k, word)
    ensures exists head, rest :: t == head + word + rest && NamedAfter(head, word, rest)
  {
    CutAround(t, k, word);
    RunsAreCounted(t[..k]);
    assert NamedAfter(t[..k], word, t[k + |word|..]);
  }

  /** A block starts with a cause, or with a name that ends in one of the three words and comes after
      at most six others. */
  lemma StartIff(t: string)
    ensures StartText(t) <==> "Caused by:" <= t || exists head, word, rest :: t == head + word + rest && NamedAfter(head, word, rest)
  {
    NameAtIff(t);
    if head, word, rest :| t == head + word + rest && NamedAfter(head, word, rest) {
      NamedAfterIsAt(t, head, word, rest);
    }
    if k: nat, word :| NameAt(t, k, word) {
      NameAtIsAfter(t, k, word);
    }
  }

  lemma CutAround(t: string, k: nat, word: string)
    requires k <= |t| && WordEndsAt(t, k, word)
    ensures k + |word| <= |t| && t == t[..k] + word + t[k + |word|..]
    ensures t[k + |word|..] == "" || !IsWord(t[k + |word|..][0])
  {
    assert t[k..][..|word|] == word;
  }

  /** Events without a container share the buffer of one called "unknown". */
  lemma UnnamedAreUnknown(e: Event)
    ensures e.Name() == if e.container.Some? then e.container.value else "unknown"
  {
  }

  /** Both are asked of the whole text and of its first line, stripped. */
  lemma EitherLineCounts(raw: string)
    ensures IsContinuation(raw) <==> ContinuationText(raw) || ContinuationText(Strip(Split(raw)[0]))
    ensures IsStart(raw) <==> StartText(raw) || StartText(Strip(Split(raw)[0]))
  {
  }
}
