/**
 Answers that are more than the object: prose before and after it, and prose before a truncated one.
 */
module JsonProse {
  import opened Wrappers
  import opened Text
  import opened JsonRepair
  import opened JsonCuts

  // ----- Stripping -----

  lemma {:induction false} LStripProse(pre: string, u: string)
    requires u != "" && !IsSpace(u[0])
    ensures LStrip(pre + u) == LStrip(pre) + u
    decreases |pre|
  {
    if pre == "" {
      assert pre + u == u;
    } else if IsSpace(pre[0]) {
      assert (pre + u)[1..] == pre[1..] + u;
      LStripProse(pre[1..], u);
    }
  }

  lemma {:induction false} LStripKeepsOut(pre: string, c: char)
    requires c !in pre
    ensures c !in LStrip(pre)
    decreases |pre|
  {
    if pre != "" && IsSpace(pre[0]) { LStripKeepsOut(pre[1..], c); }
  }

  lemma RStripKeepsOut(post: string, c: char)
    requires c !in post
    ensures c !in RStrip(post)
  {
    assert RStrip(post) <= post;
  }

  /** What is left of `pre + u + post` when `u` begins and ends with something solid. */
  lemma StripProse(pre: string, u: string, post: string)
    requires u != "" && !IsSpace(u[0]) && !IsSpace(u[|u| - 1])
    ensures Strip(pre + u + post) == LStrip(pre) + u + RStrip(post)
  {
    assert pre + u + post == pre + (u + post);
    LStripProse(pre, u + post);
    var front := LStrip(pre) + u;
    assert LStrip(pre) + (u + post) == front + post;
    RStripFrom(front, post);
  }

  // ----- The block in braces -----

  lemma FirstIs(t: string, c: char, i: nat)
    requires i < |t| && t[i] == c && c !in t[..i]
    ensures FirstIndex(t, c) == Some(i)
  {
    var j := FirstIndex(t, c).value;
    NotBefore(t, c, i, j);
    NotBefore(t, c, j, i);
  }

  lemma NotBefore(t: string, c: char, i: nat, j: nat)
    requires i <= |t| && c !in t[..i] && j < |t| && t[j] == c
    ensures i <= j
  {
  }

  lemma {:induction false} LastIs(t: string, c: char, i: nat)
    requires i < |t| && t[i] == c && c !in t[i + 1..]
    ensures LastIndex(t, c) == Some(i)
    decreases |t|
  {
    if i < |t| - 1 {
      assert t[|t| - 1] in t[i + 1..];
      var front := t[..|t| - 1];
      assert front[i + 1..] == t[i + 1..][..|t| - 2 - i];
      LastIs(front, c, i);
    }
  }

  /** An object text with nothing like its first brace before it and nothing like its last after it. */
  lemma BlockIsFound(pre: string, u: string, post: string)
    requires |u| >= 2 && u[0] == '{' && u[|u| - 1] == '}' && '{' !in pre && '}' !in post
    ensures Outermost(pre + u + post) == Some(u)
  {
    var t := pre + u + post;
    assert t[..|pre|] == pre && t[|pre|] == '{';
    FirstIs(t, '{', |pre|);
    var j := |pre| + |u| - 1;
    assert t[j] == '}' && t[j + 1..] == post;
    LastIs(t, '}', j);
    assert t[|pre|..j + 1] == u;
  }

  // ----- Parsing the whole text -----

  lemma ProseDoesNotLoad(t: string)
    requires t == "" || (!IsSpace(t[0]) && t[0] != '{')
    ensures Loads(t) == None
  {
  }

  lemma {:induction false} SolidIsNotSkipped(t: string)
    requires t != "" && !IsSpace(t[|t| - 1])
    ensures SkipSpace(t) != ""
    decreases |t|
  {
    if IsJsonSpace(t[0]) { SolidIsNotSkipped(t[1..]); }
  }

  /** An object followed by something does not parse as a whole. */
  lemma ObjectThenProse(es: seq<Pair>, lay: Layout, post: string)
    requires CleanPairs(es) && lay.Valid() && post != "" && !IsSpace(post[|post| - 1])
    ensures Loads(Print(es, lay) + post) == None
  {
    SolidIsNotSkipped(post);
    if es == [] {
      var t := "{}" + post;
      assert SkipSpace(t) == t && t[1..] == "}" + post && (t[1..])[1..] == post;
      assert SkipSpace(t[1..]) == t[1..];
    } else {
      var tail := lay.close + ("}" + post);
      MembersStart(es, lay);
      SkipJsonSpaces(lay.close, "}" + post);
      assert ("}" + post)[1..] == post;
      ReadCleanMembers(es, lay, tail, map[]);
      LoadsOpen(lay, Members(es, lay) + tail);
      Reassociate("{" + lay.open, Members(es, lay), lay.close, "}", post);
    }
  }

  lemma Reassociate(a: string, b: string, c: string, d: string, e: string)
    ensures a + (b + (c + (d + e))) == a + b + c + d + e
  {
  }

  lemma PrintIsBraced(es: seq<Pair>, lay: Layout)
    ensures var t := Print(es, lay); |t| >= 2 && t[0] == '{' && t[|t| - 1] == '}'
  {
  }

  lemma PrintHasNoTicks(es: seq<Pair>, lay: Layout)
    requires CleanPairs(es) && lay.Valid()
    ensures '`' !in Print(es, lay)
  {
    MembersAreInert(es, lay);
  }

  /** Whatever prose stands around an object, the answer is the object: parsing the whole text either
      fails or gives it too. */
  lemma ProseIsIgnored(pre: string, es: seq<Pair>, lay: Layout, post: string)
    requires CleanPairs(es) && lay.Valid()
    requires '{' !in pre && '}' !in post && '`' !in pre && '`' !in post
    ensures SafeParse(pre + Print(es, lay) + post) == Some(Dictionary(es))
  {
    var u := Print(es, lay);
    var text := pre + u + post;
    var before, after := LStrip(pre), RStrip(post);
    PrintHasNoTicks(es, lay);
    NothingFenced(text);
    PrintIsBraced(es, lay);
    StripProse(pre, u, post);
    LStripKeepsOut(pre, '{');
    RStripKeepsOut(post, '}');
    BlockIsFound(before, u, after);
    PrintThenLoad(es, lay);
    if before != "" {
      ProseDoesNotLoad(before + u + after);
    } else if after != "" {
      ObjectThenProse(es, lay, after);
      assert before + u + after == u + after;
    } else {
      assert before + u + after == u;
    }
  }

  // ----- Prose before a truncated object -----

  /** Text that cannot be taken for syntax. */
  predicate Prose(pre: string) {
    forall c :: c in pre ==> c !in {'{', '}', '"', '`'}
  }

  /** A dangling key has a quote before anything but commas and white space. */
  lemma {:induction false} LStripFindsBrace(pre: string, u: string)
    requires '"' !in pre && StartsWith(u, '{')
    ensures !StartsWith(LStrip(pre + u), '"')
    decreases |pre|
  {
    LStripProse(pre, u);
    LStripKeepsOut(pre, '"');
    if LStrip(pre) != "" { assert (LStrip(pre) + u)[0] in LStrip(pre); }
  }

  lemma ProseDoesNotDangle(pre: string, u: string, comma: bool)
    requires '"' !in pre && pre != "" && StartsWith(u, '{')
    ensures !Dangling(pre + u, comma)
  {
    assert (pre + u)[0] == pre[0] && pre[0] in pre;
    if comma {
      assert (pre + u)[1..] == pre[1..] + u;
      assert forall c :: c in pre[1..] ==> c in pre;
      LStripFindsBrace(pre[1..], u);
    }
  }

  lemma {:induction false} FindLater(pre: string, u: string, comma: bool, p: nat)
    requires '"' !in pre && StartsWith(u, '{') && p <= |pre|
    ensures FindDangling(pre + u, comma, p) == |pre| + FindDangling(u, comma, 0)
    decreases |pre| - p
  {
    var t := pre + u;
    if p < |pre| {
      assert t[p..] == pre[p..] + u;
      assert forall c :: c in pre[p..] ==> c in pre;
      ProseDoesNotDangle(pre[p..], u, comma);
      FindLater(pre, u, comma, p + 1);
    } else {
      FindInside(pre, u, comma, 0);
    }
  }

  lemma {:induction false} FindShifted(t: string, k: nat, u: string, comma: bool, q: nat)
    requires |t| == k + |u| && q <= |u| && forall s | 0 <= s <= |u| :: t[k + s..] == u[s..]
    ensures FindDangling(t, comma, k + q) == k + FindDangling(u, comma, q)
    decreases |u| - q
  {
    assert t[k + q..] == u[q..];
    if q < |u| && !Dangling(u[q..], comma) { FindShifted(t, k, u, comma, q + 1); }
  }

  lemma FindInside(pre: string, u: string, comma: bool, q: nat)
    requires q <= |u|
    ensures FindDangling(pre + u, comma, |pre| + q) == |pre| + FindDangling(u, comma, q)
  {
    forall s | 0 <= s <= |u|
      ensures (pre + u)[|pre| + s..] == u[s..]
    {
    }
    FindShifted(pre + u, |pre|, u, comma, q);
  }

  lemma DropBehindProse(pre: string, u: string, comma: bool)
    requires '"' !in pre && StartsWith(u, '{')
    ensures DropDangling(pre + u, comma) == pre + DropDangling(u, comma)
    ensures StartsWith(DropDangling(u, comma), '{') && DropDangling(u, comma) <= u
  {
    FindLater(pre, u, comma, 0);
    var n := FindDangling(u, comma, 0);
    assert (pre + u)[..|pre| + n] == pre + u[..n];
    assert u[0..] == u && !Dangling(u, comma);
    assert n > 0;
  }

  lemma CloseBehindProse(pre: string, u: string)
    requires '"' !in pre && u != ""
    ensures Close(pre + u) == pre + Close(u)
  {
    NoQuotes(pre);
    QuotesConcat(pre, u);
    assert (pre + u)[|pre + u| - 1] == u[|u| - 1];
  }

  lemma RepairBehindProse(pre: string, u: string)
    requires '"' !in pre && StartsWith(u, '{') && '}' !in u
    ensures Repaired(pre + u) == pre + Repaired(u)
    ensures |Repaired(u)| >= 2 && StartsWith(Repaired(u), '{') && EndsWithBrace(Repaired(u))
  {
    var v := DropDangling(u, true);
    DropBehindProse(pre, u, true);
    DropBehindProse(pre, v, false);
    var w := DropDangling(v, false);
    CloseBehindProse(pre, w);
    assert w <= v <= u && '}' !in w;
  }

  /** Prose before a truncated object changes nothing. */
  lemma ProseBeforeTruncation(pre: string, u: string)
    requires Prose(pre) && StartsWith(u, '{') && '}' !in u && '`' !in u
    ensures SafeParse(pre + u) == SafeParse(u)
  {
    var text := pre + u;
    var before, cut := LStrip(pre), RStrip(u);
    assert '`' !in pre && '{' !in pre && '"' !in pre && '}' !in pre;
    NothingFenced(text);
    LStripProse(pre, u);
    LStripKeepsOut(pre, '{');
    LStripKeepsOut(pre, '}');
    LStripKeepsOut(pre, '"');
    BraceIsKept(before, u);
    RepairBehindProse(before, cut);
    SafeParseTruncated(u, cut);
    BlocksAlike(before, Repaired(cut));
    NoClosingBrace(before + cut);
  }

  lemma {:induction false} BraceIsKept(pre: string, u: string)
    requires StartsWith(u, '{')
    ensures RStrip(pre + u) == pre + RStrip(u) && StartsWith(RStrip(u), '{') && RStrip(u) <= u
  {
    var solid, rest := pre + u[..1], u[1..];
    assert pre + u == solid + rest && u == u[..1] + rest;
    RStripFrom(solid, rest);
    RStripFrom(u[..1], rest);
  }

  /** A repaired object is found behind prose as well as alone. */
  lemma BlocksAlike(pre: string, closed: string)
    requires '{' !in pre && (pre == "" || !IsSpace(pre[0]))
    requires |closed| >= 2 && StartsWith(closed, '{') && EndsWithBrace(closed)
    ensures LoadsBlock(pre + closed) == LoadsBlock(closed)
  {
    BlockIsFound(pre, closed, "");
    BlockIsFound("", closed, "");
    assert pre + closed + "" == pre + closed && "" + closed + "" == closed;
    if pre == "" {
      assert pre + closed == closed;
    } else {
      ProseDoesNotLoad(pre + closed);
    }
  }

  /** A printed object, truncated anywhere after its first brace, is answered alike behind prose. */
  lemma EveryTruncationBehindProse(pre: string, es: seq<Pair>, lay: Layout, n: nat)
    requires Prose(pre) && CleanPairs(es) && lay.Valid() && 0 < n < |Print(es, lay)|
    ensures SafeParse(pre + Print(es, lay)[..n]) == SafeParse(Print(es, lay)[..n])
  {
    var t := Print(es, lay);
    PrintHasNoTicks(es, lay);
    OneClosingBrace(es, lay);
    assert t[..n] == t[..|t| - 1][..n];
    ProseBeforeTruncation(pre, t[..n]);
  }

  lemma OneClosingBrace(es: seq<Pair>, lay: Layout)
    requires CleanPairs(es) && lay.Valid()
    ensures '}' !in Print(es, lay)[..|Print(es, lay)| - 1] && StartsWith(Print(es, lay), '{')
  {
    if es == [] {
      assert Print(es, lay)[..1] == "{";
    } else {
      MembersAreInert(es, lay);
      var front := "{" + lay.open + Members(es, lay) + lay.close;
      assert Print(es, lay)[..|front|] == front;
    }
  }
}
