/**
 What the repair does to every truncation of a printed object.

 A printed object is cut at an arbitrary character.  `Cut` names every place this can happen, and
 `Expected` says what the repaired answer is there.
 */
module JsonCuts {
  import opened Wrappers
  import opened Text
  import opened JsonRepair

  // ----- Printing -----

  datatype Pair = Pair(key: string, value: string)

  /** The white space a printer puts after the brace, a comma and a colon, and before the last brace. */
  datatype Layout = Layout(open: string, afterComma: string, afterColon: string, close: string) {
    predicate Valid() {
      JsonSpaces(open) && JsonSpaces(afterComma) && JsonSpaces(afterColon) && JsonSpaces(close)
    }
  }

  /** Text that is printed as it is and cannot be taken for syntax. */
  predicate CleanText(t: string) {
    forall i :: 0 <= i < |t| ==> t[i] >= ' ' && t[i] !in {'"', '\\', '{', '}', ':', '`'}
  }

  predicate CleanPairs(es: seq<Pair>) {
    forall i :: 0 <= i < |es| ==> es[i].key != "" && CleanText(es[i].key) && CleanText(es[i].value)
  }

  function Member(p: Pair, lay: Layout): string {
    "\"" + p.key + "\":" + lay.afterColon + "\"" + p.value + "\""
  }

  function Members(es: seq<Pair>, lay: Layout): string {
    if es == [] then ""
    else if |es| == 1 then Member(es[0], lay)
    else Member(es[0], lay) + "," + lay.afterComma + Members(es[1..], lay)
  }

  function Print(es: seq<Pair>, lay: Layout): string {
    if es == [] then "{}" else "{" + lay.open + Members(es, lay) + lay.close + "}"
  }

  /** The dictionary of the pairs: a later key replaces an earlier one. */
  function Dictionary(es: seq<Pair>): map<string, string> {
    Extend(map[], es)
  }

  function Extend(acc: map<string, string>, es: seq<Pair>): map<string, string>
    decreases |es|
  {
    if es == [] then acc else Extend(acc[es[0].key := es[0].value], es[1..])
  }

  // ----- Reading what was printed -----

  lemma {:induction false} SkipJsonSpaces(s: string, t: string)
    requires JsonSpaces(s) && (t == "" || !IsJsonSpace(t[0]))
    ensures SkipSpace(s + t) == t
    decreases |s|
  {
    if s == "" {
      assert s + t == t;
    } else {
      assert (s + t)[1..] == s[1..] + t;
      SkipJsonSpaces(s[1..], t);
    }
  }

  lemma {:induction false} ReadCleanBody(s: string, rest: string)
    requires CleanText(s)
    ensures ReadBody(s + "\"" + rest) == Ok(s, rest)
    decreases |s|
  {
    var t := s + "\"" + rest;
    if s == "" {
      assert t == "\"" + rest;
      assert t[1..] == rest;
    } else {
      assert t[1..] == s[1..] + "\"" + rest;
      ReadCleanBody(s[1..], rest);
      assert s == [s[0]] + s[1..];
    }
  }

  lemma ReadCleanString(s: string, rest: string)
    requires CleanText(s)
    ensures ReadString("\"" + s + "\"" + rest) == Ok(s, rest)
  {
    assert ("\"" + s + "\"" + rest)[1..] == s + "\"" + rest;
    ReadCleanBody(s, rest);
  }

  lemma MemberText(p: Pair, lay: Layout, rest: string)
    ensures Member(p, lay) + rest
         == "\"" + p.key + "\"" + (":" + lay.afterColon + ("\"" + p.value + "\"" + rest))
  {
  }

  lemma AfterFirst(c: char, t: string)
    ensures ([c] + t)[1..] == t
  {
  }

  lemma ReadCleanMember(p: Pair, lay: Layout, rest: string)
    requires CleanText(p.key) && CleanText(p.value) && lay.Valid()
    ensures ReadMember(Member(p, lay) + rest) == Ok((p.key, p.value), rest)
  {
    var quoted := "\"" + p.value + "\"" + rest;
    var afterKey := ":" + lay.afterColon + quoted;
    MemberText(p, lay, rest);
    ReadCleanString(p.key, afterKey);
    SkipJsonSpaces("", afterKey);
    assert "" + afterKey == afterKey;
    AfterFirst(':', lay.afterColon + quoted);
    assert afterKey == ":" + (lay.afterColon + quoted);
    SkipJsonSpaces(lay.afterColon, quoted);
    ReadCleanString(p.value, rest);
  }

  lemma ReadMembersStep(p: Pair, lay: Layout, rest: string, acc: map<string, string>)
    requires CleanText(p.key) && CleanText(p.value) && lay.Valid()
    ensures var next := SkipSpace(rest);
            ReadMembers(Member(p, lay) + rest, acc) ==
            if StartsWith(next, ',') then ReadMembers(SkipSpace(next[1..]), acc[p.key := p.value])
            else if StartsWith(next, '}') then Ok(acc[p.key := p.value], next[1..])
            else Fail
  {
    ReadCleanMember(p, lay, rest);
  }

  lemma CommaThen(space: string, more: string)
    requires JsonSpaces(space) && (more == "" || !IsJsonSpace(more[0]))
    ensures SkipSpace("," + space + more) == "," + space + more
    ensures ("," + space + more)[1..] == space + more && SkipSpace(space + more) == more
  {
    SkipJsonSpaces(space, more);
  }

  lemma ReadMembersComma(p: Pair, lay: Layout, more: string, acc: map<string, string>)
    requires CleanText(p.key) && CleanText(p.value) && lay.Valid() && StartsWith(more, '"')
    ensures ReadMembers(Member(p, lay) + ("," + lay.afterComma + more), acc) == ReadMembers(more, acc[p.key := p.value])
  {
    CommaThen(lay.afterComma, more);
    ReadMembersStep(p, lay, "," + lay.afterComma + more, acc);
  }

  /** Reading the printed members followed by `tail` comes down to reading the last one. */
  lemma {:induction false} ReadCleanMembers(es: seq<Pair>, lay: Layout, tail: string, acc: map<string, string>)
    requires es != [] && CleanPairs(es) && lay.Valid()
    ensures var next := SkipSpace(tail);
            ReadMembers(Members(es, lay) + tail, acc) ==
            if StartsWith(next, ',') then ReadMembers(SkipSpace(next[1..]), Extend(acc, es))
            else if StartsWith(next, '}') then Ok(Extend(acc, es), next[1..])
            else Fail
    decreases |es|
  {
    var p := es[0];
    var acc' := acc[p.key := p.value];
    if |es| == 1 {
      ReadMembersStep(p, lay, tail, acc);
      assert Extend(acc, es) == Extend(acc', es[1..]) == acc';
    } else {
      var more := Members(es[1..], lay) + tail;
      assert Members(es, lay) + tail == Member(p, lay) + ("," + lay.afterComma + more);
      MembersStart(es[1..], lay);
      ReadMembersComma(p, lay, more, acc);
      ReadCleanMembers(es[1..], lay, tail, acc');
    }
  }

  lemma MembersStart(es: seq<Pair>, lay: Layout)
    requires es != []
    ensures StartsWith(Members(es, lay), '"')
  {
  }

  /** Parsing an object text comes down to reading its members. */
  lemma LoadsOpen(lay: Layout, inner: string)
    requires lay.Valid() && StartsWith(inner, '"')
    ensures var parsed := ReadMembers(inner, map[]);
            Loads("{" + lay.open + inner) ==
            if parsed.Ok? && SkipSpace(parsed.rest) == "" then Some(parsed.value) else None
  {
    var t := "{" + lay.open + inner;
    assert t[1..] == lay.open + inner;
    assert SkipSpace(t) == t;
    SkipJsonSpaces(lay.open, inner);
  }

  /** Printed members closed by a brace parse to their dictionary. */
  lemma LoadsClosed(es: seq<Pair>, lay: Layout, space: string)
    requires es != [] && CleanPairs(es) && lay.Valid() && JsonSpaces(space)
    ensures Loads("{" + lay.open + Members(es, lay) + space + "}") == Some(Dictionary(es))
  {
    var tail := space + "}";
    MembersStart(es, lay);
    SkipJsonSpaces(space, "}");
    ReadCleanMembers(es, lay, tail, map[]);
    LoadsOpen(lay, Members(es, lay) + tail);
    assert "}"[1..] == "";
    ConcatTail("{" + lay.open, Members(es, lay), space, "}");
  }

  lemma ConcatTail(a: string, b: string, c: string, d: string)
    ensures a + (b + (c + d)) == a + b + c + d
  {
  }

  /** Printed members, a comma and something that is no member do not parse. */
  lemma LoadsBroken(es: seq<Pair>, lay: Layout, space: string, more: string)
    requires es != [] && CleanPairs(es) && lay.Valid()
    requires JsonSpaces(space) && (more == "" || !IsJsonSpace(more[0]))
    requires ReadMembers(more, Dictionary(es)).Fail?
    ensures Loads("{" + lay.open + (Members(es, lay) + ("," + space + more))).None?
  {
    BrokenMembers(es, lay, space, more);
    OpenMembers(es, lay, "," + space + more);
  }

  lemma BrokenMembers(es: seq<Pair>, lay: Layout, space: string, more: string)
    requires es != [] && CleanPairs(es) && lay.Valid()
    requires JsonSpaces(space) && (more == "" || !IsJsonSpace(more[0]))
    requires ReadMembers(more, Dictionary(es)).Fail?
    ensures ReadMembers(Members(es, lay) + ("," + space + more), map[]).Fail?
  {
    CommaThen(space, more);
    ReadCleanMembers(es, lay, "," + space + more, map[]);
  }

  lemma OpenMembers(es: seq<Pair>, lay: Layout, tail: string)
    requires es != [] && lay.Valid() && ReadMembers(Members(es, lay) + tail, map[]).Fail?
    ensures Loads("{" + lay.open + (Members(es, lay) + tail)).None?
  {
    MembersStart(es, lay);
    LoadsOpen(lay, Members(es, lay) + tail);
  }

  lemma LoadsEmpty(space: string)
    requires JsonSpaces(space)
    ensures Loads("{" + space + "}") == Some(map[])
  {
    var t := "{" + space + "}";
    assert SkipSpace(t) == t;
    assert t[1..] == space + "}" && "}"[1..] == "";
    SkipJsonSpaces(space, "}");
  }

  /** Printing and parsing round-trip. */
  lemma PrintThenLoad(es: seq<Pair>, lay: Layout)
    requires CleanPairs(es) && lay.Valid()
    ensures Loads(Print(es, lay)) == Some(Dictionary(es))
  {
    if es == [] {
      LoadsEmpty("");
      assert "{" + "" + "}" == "{}";
    } else {
      LoadsClosed(es, lay, lay.close);
    }
  }

  // ----- Cuts -----

  /** Where a printed object is cut. `i` counts the members before the cut. */
  datatype Cut =
    | Nowhere                                  // nothing is left
    | AfterBrace(space: string)                // the first brace, part of the space after it
    | InKey(i: nat, part: string)              // inside a key: its opening quote and `part`
    | AfterKey(i: nat)                         // the key's closing quote
    | AfterColon(i: nat, space: string)        // the colon, part of the space after it
    | InValue(i: nat, part: string)            // inside a value
    | AfterValue(i: nat, space: string)        // the value's closing quote (and part of the last space)
    | AfterComma(i: nat, space: string)        // a comma, part of the space after it
    | Whole

  /** Everything printed before member `i`. */
  function Before(es: seq<Pair>, lay: Layout, i: nat): string
    requires i <= |es|
  {
    "{" + lay.open + (if i == 0 then "" else Members(es[..i], lay) + "," + lay.afterComma)
  }

  predicate Occurs(es: seq<Pair>, lay: Layout, cut: Cut) {
    match cut
    case Nowhere => true
    case AfterBrace(space) => space <= lay.open
    case InKey(i, part) => i < |es| && part <= es[i].key
    case AfterKey(i) => i < |es|
    case AfterColon(i, space) => i < |es| && space <= lay.afterColon
    case InValue(i, part) => i < |es| && part <= es[i].value
    case AfterValue(i, space) => i < |es| && (if i + 1 == |es| then space <= lay.close else space == "")
    case AfterComma(i, space) => i + 1 < |es| && space <= lay.afterComma
    case Whole => true
  }

  /** The text that is left. */
  function Left(es: seq<Pair>, lay: Layout, cut: Cut): string
    requires Occurs(es, lay, cut)
  {
    match cut
    case Nowhere => ""
    case AfterBrace(space) => "{" + space
    case InKey(i, part) => Before(es, lay, i) + "\"" + part
    case AfterKey(i) => Before(es, lay, i) + "\"" + es[i].key + "\""
    case AfterColon(i, space) => Before(es, lay, i) + "\"" + es[i].key + "\":" + space
    case InValue(i, part) => Before(es, lay, i) + "\"" + es[i].key + "\":" + lay.afterColon + "\"" + part
    case AfterValue(i, space) => "{" + lay.open + Members(es[..i + 1], lay) + space
    case AfterComma(i, space) => "{" + lay.open + Members(es[..i + 1], lay) + "," + space
    case Whole => Print(es, lay)
  }

  /** What the repair answers: the complete members, and a member cut inside its value with the
      part of the value that is left (without white space at its end).  A cut inside a key, after
      a key or after a comma gives the fallback. */
  function Expected(es: seq<Pair>, cut: Cut): Option<map<string, string>> {
    match cut
    case Nowhere => None
    case AfterBrace(_) => Some(map[])
    case InKey(_, _) => None
    case AfterKey(_) => None
    case AfterColon(i, _) => Some(Dictionary(if i <= |es| then es[..i] else es))
    case InValue(i, part) => if i < |es| then Some(Dictionary(es[..i] + [Pair(es[i].key, RStrip(part))])) else None
    case AfterValue(i, _) => Some(Dictionary(if i < |es| then es[..i + 1] else es))
    case AfterComma(_, _) => None
    case Whole => Some(Dictionary(es))
  }

  // ----- The steps of the repair -----

  lemma {:induction false} QuotesConcat(a: string, b: string)
    ensures Quotes(a + b) == Quotes(a) + Quotes(b)
    decreases |b|
  {
    if b == "" {
      assert a + b == a;
    } else {
      assert (a + b)[..|a + b| - 1] == a + b[..|b| - 1];
      QuotesConcat(a, b[..|b| - 1]);
    }
  }

  lemma {:induction false} NoQuotes(t: string)
    requires '"' !in t
    ensures Quotes(t) == 0
    decreases |t|
  {
    if t != "" { NoQuotes(t[..|t| - 1]); }
  }

  lemma {:induction false} LStripKeeps(t: string, c: char)
    requires c in t && !IsSpace(c)
    ensures c in LStrip(t)
    decreases |t|
  {
    if IsSpace(t[0]) {
      assert t == [t[0]] + t[1..];
      LStripKeeps(t[1..], c);
    }
  }

  predicate EndsInColonOrSpace(t: string) {
    t != "" && (t[|t| - 1] == ':' || IsSpace(t[|t| - 1]))
  }

  lemma {:induction false} LStripEnd(t: string)
    requires LStrip(t) == "" || EndsInColonOrSpace(LStrip(t))
    ensures t == "" || EndsInColonOrSpace(t)
    decreases |t|
  {
    if t != "" && IsSpace(t[0]) { LStripEnd(t[1..]); }
  }

  /** What follows the text of a dangling key. */
  lemma AfterText(after: string)
    requires StartsWith(LStrip(after), ':') && LStrip(LStrip(after)[1..]) == ""
    ensures '"' !in after && EndsInColonOrSpace(after)
  {
    var colon := LStrip(after);
    assert colon == [':'] + colon[1..];
    LStripEnd(colon[1..]);
    LStripEnd(after);
    if '"' in after {
      LStripKeeps(after, '"');
      LStripKeeps(colon[1..], '"');
    }
  }

  /** The parts of a dangling key without its comma: it has two quotes and ends in a colon or in
      white space. */
  lemma QuotedParts(u: string)
    requires Dangling(u, false)
    ensures Quotes(u) == 2 && EndsInColonOrSpace(u)
  {
    var n := FirstIndex(u[1..], '"').value;
    var body, after := u[1..][..n], u[1..][n + 1..];
    AfterText(after);
    NoQuotes(body);
    NoQuotes(after);
    assert u == "\"" + body + "\"" + after;
    QuotesConcat("\"" + body + "\"", after);
    QuotesConcat("\"" + body, "\"");
    QuotesConcat("\"", body);
    OneQuote();
  }

  lemma {:induction false} LStripQuotes(t: string)
    ensures Quotes(LStrip(t)) == Quotes(t)
    decreases |t|
  {
    if t != "" && IsSpace(t[0]) {
      LStripQuotes(t[1..]);
      assert t == [t[0]] + t[1..];
      QuotesConcat([t[0]], t[1..]);
      NoQuotes([t[0]]);
    }
  }

  /** A dangling key has exactly the two quotes of its text, and ends in a colon or in white space. */
  lemma DanglingParts(u: string, comma: bool)
    requires Dangling(u, comma)
    ensures Quotes(u) == 2 && EndsInColonOrSpace(u)
  {
    if comma {
      assert Dangling(LStrip(u[1..]), false);
      PartsAfterComma(u);
    } else {
      QuotedParts(u);
    }
  }

  lemma PartsAfterComma(u: string)
    requires StartsWith(u, ',') && Dangling(LStrip(u[1..]), false)
    ensures Quotes(u) == 2 && EndsInColonOrSpace(u)
  {
    QuotedParts(LStrip(u[1..]));
    LStripQuotes(u[1..]);
    LStripEnd(u[1..]);
    CommaHasNoQuote(u);
  }

  lemma CommaHasNoQuote(u: string)
    requires StartsWith(u, ',')
    ensures Quotes(u) == Quotes(u[1..])
  {
    assert u == [u[0]] + u[1..];
    QuotesConcat([u[0]], u[1..]);
    NoQuotes([u[0]]);
  }

  lemma OneQuote()
    ensures Quotes("\"") == 1
  {
    assert "\""[..0] == "";
  }

  /** `q` is the leftmost place from `p` on where a dangling key starts, or the end. */
  lemma {:induction false} FindIs(t: string, comma: bool, p: nat, q: nat)
    requires p <= q <= |t| && (q == |t| || Dangling(t[q..], comma))
    requires forall r :: p <= r < q ==> !Dangling(t[r..], comma)
    ensures FindDangling(t, comma, p) == q
    decreases q - p
  {
    if p < q { FindIs(t, comma, p + 1, q); }
  }

  /** A text that ends in neither a colon nor white space keeps its end. */
  lemma NothingDangles(t: string, comma: bool)
    requires t != "" && t[|t| - 1] != ':' && !IsSpace(t[|t| - 1])
    ensures DropDangling(t, comma) == t
  {
    forall r | 0 <= r < |t|
      ensures !Dangling(t[r..], comma)
    {
      if Dangling(t[r..], comma) { DanglingParts(t[r..], comma); }
    }
    FindIs(t, comma, 0, |t|);
  }

  lemma RepairedIsClosed(t: string)
    requires t != "" && t[|t| - 1] != ':' && !IsSpace(t[|t| - 1])
    ensures Repaired(t) == Close(t)
  {
    NothingDangles(t, true);
    NothingDangles(t, false);
  }

  lemma LoadsBlockOfBraces(t: string)
    requires |t| >= 2 && t[0] == '{' && t[|t| - 1] == '}'
    ensures LoadsBlock(t) == Loads(t)
  {
    assert t[0..|t|] == t;
  }

  lemma {:induction false} NothingFenced(t: string)
    requires '`' !in t
    ensures RemoveFences(t) == t
    decreases |t|
  {
    if t != "" {
      assert t == [t[0]] + t[1..];
      assert "```"[0] == '`';
      NothingFenced(t[1..]);
    }
  }

  lemma RStripAfter(a: string, part: string)
    requires a != "" && !IsSpace(a[|a| - 1])
    ensures RStrip(a + part) == a + RStrip(part)
  {
    RStripFrom(a, part);
  }

  lemma {:induction false} RStripFrom(a: string, part: string)
    requires a != "" && !IsSpace(a[|a| - 1])
    ensures RStrip(a + part) == a + RStrip(part)
    decreases |part|
  {
    if part == "" {
      assert a + part == a;
    } else if IsSpace(part[|part| - 1]) {
      assert (a + part)[..|a + part| - 1] == a + part[..|part| - 1];
      RStripFrom(a, part[..|part| - 1]);
    }
  }

  /** Neither the whole text nor a block of it parses without a closing brace. */
  lemma NoClosingBrace(t: string)
    requires '}' !in t
    ensures LoadsBlock(t) == None
  {
  }

  lemma ParsedAfterRepair(text: string, cleaned: string)
    requires text != "" && cleaned == Strip(RemoveFences(text)) && LoadsBlock(cleaned) == None
    ensures SafeParse(text) == LoadsBlock(Repaired(cleaned))
  {
  }

  /** A text without closing braces is parsed only after the repair. */
  lemma SafeParseTruncated(text: string, cleaned: string)
    requires text != "" && '`' !in text && !IsSpace(text[0]) && '}' !in text
    requires cleaned == RStrip(text)
    ensures SafeParse(text) == LoadsBlock(Repaired(cleaned))
  {
    NothingFenced(text);
    assert LStrip(text) == text;
    assert '}' !in cleaned;
    NoClosingBrace(cleaned);
    ParsedAfterRepair(text, cleaned);
  }

  // ----- The repaired texts -----

  predicate Fragment(t: string) { CleanText(t) && (t == "" || !IsSpace(t[|t| - 1])) }

  lemma {:induction false} MembersSnoc(es: seq<Pair>, p: Pair, lay: Layout)
    ensures Members(es + [p], lay) == (if es == [] then "" else Members(es, lay) + "," + lay.afterComma) + Member(p, lay)
    decreases |es|
  {
    if es == [] {
      assert es + [p] == [p];
    } else {
      assert (es + [p])[1..] == es[1..] + [p];
      MembersSnoc(es[1..], p, lay);
      if |es| > 1 {
        assert Members(es + [p], lay) ==
               Member(es[0], lay) + "," + lay.afterComma + (Members(es[1..], lay) + "," + lay.afterComma + Member(p, lay));
      }
    }
  }

  /** A key without a value does not parse, after any number of members. */
  lemma LoneKeyDoesNotLoad(es: seq<Pair>, lay: Layout, i: nat, text: string)
    requires CleanPairs(es) && lay.Valid() && i < |es| && CleanText(text)
    ensures Loads(Before(es, lay, i) + "\"" + text + "\"}").None?
  {
    var more := "\"" + text + "\"}";
    KeyIsNoMember(text);
    if i == 0 {
      LoadsOpen(lay, more);
      RegroupKey("{" + lay.open, text);
      assert Before(es, lay, i) == "{" + lay.open;
    } else {
      LoadsBroken(es[..i], lay, lay.afterComma, more);
      RegroupKey(Before(es, lay, i), text);
      RegroupBroken("{" + lay.open, Members(es[..i], lay), lay.afterComma, more);
    }
  }

  lemma KeyIsNoMember(text: string)
    requires CleanText(text)
    ensures forall acc :: ReadMembers("\"" + text + "\"}", acc).Fail?
  {
    assert "\"" + text + "\"}" == "\"" + text + "\"" + "}";
    ReadCleanString(text, "}");
  }

  lemma RegroupKey(a: string, text: string)
    ensures a + ("\"" + text + "\"}") == a + "\"" + text + "\"}"
  {
  }

  lemma RegroupBroken(a: string, b: string, space: string, more: string)
    ensures a + (b + ("," + space + more)) == a + (b + "," + space) + more
  {
  }

  lemma SpacesHaveNoQuotes(t: string)
    requires JsonSpaces(t)
    ensures Quotes(t) == 0
  {
    NoQuotes(t);
  }

  lemma MemberQuotes(p: Pair, lay: Layout)
    requires CleanText(p.key) && CleanText(p.value) && lay.Valid()
    ensures Quotes(Member(p, lay)) == 4
  {
    OpenValueQuotes(p.key, p.value, lay);
    QuotesConcat("\"" + p.key + "\":" + lay.afterColon + "\"" + p.value, "\"");
    OneQuote();
  }

  lemma OpenValueQuotes(key: string, part: string, lay: Layout)
    requires CleanText(key) && CleanText(part) && lay.Valid()
    ensures Quotes("\"" + key + "\":" + lay.afterColon + "\"" + part) == 3
  {
    KeyQuotes(key);
    SpacesHaveNoQuotes(lay.afterColon);
    NoQuotes(part);
    QuotesConcat("\"" + key + "\":" + lay.afterColon + "\"", part);
    QuotesConcat("\"" + key + "\":" + lay.afterColon, "\"");
    QuotesConcat("\"" + key + "\":", lay.afterColon);
    OneQuote();
  }

  lemma KeyQuotes(key: string)
    requires CleanText(key)
    ensures Quotes("\"" + key) == 1 && Quotes("\"" + key + "\"") == 2 && Quotes("\"" + key + "\":") == 2
  {
    NoQuotes(key);
    NoQuotes(":");
    OneQuote();
    QuotesConcat("\"", key);
    QuotesConcat("\"" + key, "\"");
    QuotesConcat("\"" + key + "\"", ":");
    assert "\"" + key + "\"" + ":" == "\"" + key + "\":";
  }

  lemma {:induction false} MembersQuotes(es: seq<Pair>, lay: Layout)
    requires CleanPairs(es) && lay.Valid()
    ensures Quotes(Members(es, lay)) == 4 * |es|
    decreases |es|
  {
    if es != [] {
      MemberQuotes(es[0], lay);
      if |es| > 1 {
        MembersQuotes(es[1..], lay);
        SpacesHaveNoQuotes(lay.afterComma);
        NoQuotes(",");
        QuotesConcat(Member(es[0], lay) + "," + lay.afterComma, Members(es[1..], lay));
        QuotesConcat(Member(es[0], lay) + ",", lay.afterComma);
        QuotesConcat(Member(es[0], lay), ",");
      }
    }
  }

  /** The texts up to a whole member have an even number of quotes. */
  lemma DoneQuotes(es: seq<Pair>, lay: Layout)
    requires CleanPairs(es) && lay.Valid()
    ensures Quotes("{" + lay.open + Members(es, lay)) == 4 * |es|
    ensures Quotes("{" + lay.open + Members(es, lay) + ",") == 4 * |es|
  {
    MembersQuotes(es, lay);
    SpacesHaveNoQuotes(lay.open);
    NoQuotes("{");
    NoQuotes(",");
    QuotesConcat("{" + lay.open, Members(es, lay));
    QuotesConcat("{", lay.open);
    QuotesConcat("{" + lay.open + Members(es, lay), ",");
  }

  lemma BeforeQuotes(es: seq<Pair>, lay: Layout, i: nat)
    requires CleanPairs(es) && lay.Valid() && i <= |es|
    ensures Quotes(Before(es, lay, i)) == 4 * i
  {
    DoneQuotes(es[..i], lay);
    SpacesHaveNoQuotes(lay.afterComma);
    if i == 0 {
      assert "{" + lay.open + Members(es[..0], lay) == Before(es, lay, i);
    } else {
      QuotesConcat("{" + lay.open + Members(es[..i], lay) + ",", lay.afterComma);
      assert "{" + lay.open + Members(es[..i], lay) + "," + lay.afterComma == Before(es, lay, i);
    }
  }

  // ----- The cases -----

  /** No fence and no closing brace. */
  predicate Inert(t: string) { '`' !in t && '}' !in t }

  lemma {:induction false} MembersAreInert(es: seq<Pair>, lay: Layout)
    requires CleanPairs(es) && lay.Valid()
    ensures Inert(Members(es, lay))
    decreases |es|
  {
    if es != [] {
      MemberIsInert(es[0], lay);
      if |es| > 1 { MembersAreInert(es[1..], lay); }
    }
  }

  lemma MemberIsInert(p: Pair, lay: Layout)
    requires CleanText(p.key) && CleanText(p.value) && lay.Valid()
    ensures Inert(Member(p, lay))
  {
  }

  lemma BeforeIsInert(es: seq<Pair>, lay: Layout, i: nat)
    requires CleanPairs(es) && lay.Valid() && i <= |es|
    ensures Inert(Before(es, lay, i)) && StartsWith(Before(es, lay, i), '{')
  {
    MembersAreInert(es[..i], lay);
  }

  /** A truncated text is answered by parsing its repaired form. */
  lemma Truncated(text: string, cleaned: string, closed: string)
    requires Inert(text) && StartsWith(text, '{') && cleaned == RStrip(text)
    requires Repaired(cleaned) == closed
    requires |closed| >= 2 && closed[0] == '{' && closed[|closed| - 1] == '}'
    ensures SafeParse(text) == Loads(closed)
  {
    SafeParseTruncated(text, cleaned);
    LoadsBlockOfBraces(closed);
  }

  lemma CleanPrefix(part: string, whole: string)
    requires part <= whole && CleanText(whole)
    ensures CleanText(part) && Fragment(RStrip(part))
  {
    assert RStrip(part) <= part;
  }

  lemma OddQuotesClose(t: string)
    requires '}' !in t && Quotes(t) % 2 == 1
    ensures Close(t) == t + "\"}"
  {
  }

  /** Cut in an open string: the quote and the brace are added. */
  lemma OpenString(front: string, part: string)
    requires Inert(front) && StartsWith(front, '{') && front[|front| - 1] == '"' && Quotes(front) % 2 == 1
    requires CleanText(part)
    ensures SafeParse(front + part) == Loads(front + RStrip(part) + "\"}")
  {
    var cleaned := front + RStrip(part);
    OpenStringEnd(front, part);
    RepairedIsClosed(cleaned);
    OddQuotesClose(cleaned);
    Truncated(front + part, cleaned, cleaned + "\"}");
  }

  /** What is left of an open string ends in the string. */
  lemma OpenStringEnd(front: string, part: string)
    requires Inert(front) && front != "" && front[|front| - 1] == '"' && Quotes(front) % 2 == 1 && CleanText(part)
    ensures var cleaned := front + RStrip(part);
            && RStrip(front + part) == cleaned && Inert(front + part) && Inert(cleaned)
            && Quotes(cleaned) % 2 == 1
            && cleaned[|cleaned| - 1] != ':' && !IsSpace(cleaned[|cleaned| - 1])
  {
    CleanPrefix(part, part);
    RStripAfter(front, part);
    NoQuotes(RStrip(part));
    QuotesConcat(front, RStrip(part));
  }

  /** Cut outside a string: only the brace is added. */
  lemma ClosedString(cleaned: string, space: string)
    requires Inert(cleaned) && StartsWith(cleaned, '{') && Quotes(cleaned) % 2 == 0
    requires cleaned[|cleaned| - 1] != ':' && !IsSpace(cleaned[|cleaned| - 1]) && JsonSpaces(space)
    ensures SafeParse(cleaned + space) == Loads(cleaned + "}")
  {
    RStripSpaces(cleaned, space);
    RepairedIsClosed(cleaned);
    Truncated(cleaned + space, cleaned, cleaned + "}");
  }

  lemma RepairInKey(es: seq<Pair>, lay: Layout, i: nat, part: string)
    requires CleanPairs(es) && lay.Valid() && i < |es| && part <= es[i].key
    ensures SafeParse(Left(es, lay, InKey(i, part))) == None
  {
    var front := Before(es, lay, i) + "\"";
    CleanPrefix(part, es[i].key);
    BeforeIsOpen(es, lay, i);
    QuoteOpens(Before(es, lay, i));
    OpenString(front, part);
    LoneKeyDoesNotLoad(es, lay, i, RStrip(part));
  }

  lemma KeyFront(es: seq<Pair>, lay: Layout, i: nat)
    requires CleanPairs(es) && lay.Valid() && i < |es|
    ensures var front := Before(es, lay, i) + "\"" + es[i].key + "\"";
            Inert(front) && StartsWith(front, '{') && Quotes(front) % 2 == 0
  {
    BeforeIsOpen(es, lay, i);
    QuotedKey(Before(es, lay, i), es[i].key);
  }

  lemma QuotedKey(before: string, key: string)
    requires OpenText(before, 0) && CleanText(key)
    ensures OpenText(before + "\"" + key + "\"", 0)
  {
    KeyQuotes(key);
    QuotesConcat(before, "\"" + key + "\"");
    assert before + "\"" + key + "\"" == before + ("\"" + key + "\"");
  }

  lemma QuoteOpens(before: string)
    requires OpenText(before, 0)
    ensures OpenText(before + "\"", 1)
  {
    OneQuote();
    QuotesConcat(before, "\"");
  }

  lemma RepairAfterKey(es: seq<Pair>, lay: Layout, i: nat)
    requires CleanPairs(es) && lay.Valid() && i < |es|
    ensures SafeParse(Left(es, lay, AfterKey(i))) == None
  {
    var front := Before(es, lay, i) + "\"" + es[i].key;
    KeyFront(es, lay, i);
    ClosedString(front + "\"", "");
    assert front + "\"" + "" == front + "\"";
    LoneKeyDoesNotLoad(es, lay, i, es[i].key);
    assert front + "\"" + "}" == front + "\"}";
  }

  lemma PairsSoFar(es: seq<Pair>, lay: Layout, i: nat, value: string)
    requires CleanPairs(es) && lay.Valid() && i < |es| && CleanText(value)
    ensures var pairs := es[..i] + [Pair(es[i].key, value)];
            && CleanPairs(pairs)
            && Before(es, lay, i) + "\"" + es[i].key + "\":" + lay.afterColon + "\"" + value + "\""
               == "{" + lay.open + Members(pairs, lay)
  {
    var done := if i == 0 then "" else Members(es[..i], lay) + "," + lay.afterComma;
    MembersSnoc(es[..i], Pair(es[i].key, value), lay);
    assert es[..i] == [] <==> i == 0;
    assert Members(es[..i] + [Pair(es[i].key, value)], lay) == done + Member(Pair(es[i].key, value), lay);
    Regroup("{" + lay.open, done, es[i].key, lay.afterColon, value);
  }

  lemma Regroup(a: string, b: string, key: string, colon: string, value: string)
    ensures a + b + "\"" + key + "\":" + colon + "\"" + value + "\""
         == a + (b + ("\"" + key + "\":" + colon + "\"" + value + "\""))
  {
  }

  lemma OpenValue(key: string, lay: Layout)
    requires CleanText(key) && lay.Valid()
    ensures var open := "\"" + key + "\":" + lay.afterColon + "\"";
            Inert(open) && Quotes(open) == 3
  {
    OpenValueQuotes(key, "", lay);
    var open := "\"" + key + "\":" + lay.afterColon + "\"";
    assert open + "" == open;
  }

  lemma Concat5(a: string, b: string, c: string, d: string, e: string, f: string)
    ensures a + b + c + d + e + f == a + (b + c + d + e + f)
  {
  }

  /** An unfinished text: nothing in it ends an object or is fenced. */
  predicate OpenText(front: string, odd: nat) {
    Inert(front) && StartsWith(front, '{') && Quotes(front) % 2 == odd
  }

  lemma JoinFront(before: string, open: string, front: string)
    requires OpenText(before, 0) && Inert(open) && Quotes(open) == 3 && front == before + open
    ensures OpenText(front, 1)
  {
    QuotesConcat(before, open);
  }

  lemma BeforeIsOpen(es: seq<Pair>, lay: Layout, i: nat)
    requires CleanPairs(es) && lay.Valid() && i < |es|
    ensures OpenText(Before(es, lay, i), 0)
  {
    BeforeIsInert(es, lay, i);
    assert Quotes(Before(es, lay, i)) % 2 == 0 by { BeforeQuotes(es, lay, i); FourIsEven(i); }
  }

  lemma FourIsEven(i: nat)
    ensures 4 * i % 2 == 0
  {
  }

  lemma ValueFront(before: string, key: string, lay: Layout)
    requires OpenText(before, 0) && CleanText(key) && lay.Valid()
    ensures OpenText(before + "\"" + key + "\":" + lay.afterColon + "\"", 1)
  {
    OpenValue(key, lay);
    Concat5(before, "\"", key, "\":", lay.afterColon, "\"");
    JoinFront(before, "\"" + key + "\":" + lay.afterColon + "\"",
              before + "\"" + key + "\":" + lay.afterColon + "\"");
  }

  lemma RepairInValue(es: seq<Pair>, lay: Layout, i: nat, part: string)
    requires CleanPairs(es) && lay.Valid() && i < |es| && part <= es[i].value
    ensures SafeParse(Left(es, lay, InValue(i, part))) == Expected(es, InValue(i, part))
  {
    var front := Before(es, lay, i) + "\"" + es[i].key + "\":" + lay.afterColon + "\"";
    CleanPrefix(part, es[i].value);
    BeforeIsOpen(es, lay, i);
    ValueFront(Before(es, lay, i), es[i].key, lay);
    OpenString(front, part);
    ClosedValue(es, lay, i, RStrip(part));
  }

  lemma ClosedValue(es: seq<Pair>, lay: Layout, i: nat, value: string)
    requires CleanPairs(es) && lay.Valid() && i < |es| && CleanText(value)
    ensures Loads(Before(es, lay, i) + "\"" + es[i].key + "\":" + lay.afterColon + "\"" + value + "\"}")
         == Some(Dictionary(es[..i] + [Pair(es[i].key, value)]))
  {
    var front := Before(es, lay, i) + "\"" + es[i].key + "\":" + lay.afterColon + "\"" + value;
    var pairs := es[..i] + [Pair(es[i].key, value)];
    PairsSoFar(es, lay, i, value);
    LoadsClosed(pairs, lay, "");
    assert front + "\"}" == "{" + lay.open + Members(pairs, lay) + "" + "}";
  }

  lemma RepairAfterValue(es: seq<Pair>, lay: Layout, i: nat, space: string)
    requires CleanPairs(es) && lay.Valid() && i < |es| && JsonSpaces(space)
    ensures SafeParse("{" + lay.open + Members(es[..i + 1], lay) + space) == Some(Dictionary(es[..i + 1]))
  {
    var pairs := es[..i + 1];
    var cleaned := "{" + lay.open + Members(pairs, lay);
    DoneFront(pairs, lay);
    ClosedString(cleaned, space);
    LoadsClosed(pairs, lay, "");
    NothingBetween(cleaned);
  }

  lemma {:induction false} MembersEnd(es: seq<Pair>, lay: Layout)
    requires es != []
    ensures Members(es, lay) != "" && Members(es, lay)[|Members(es, lay)| - 1] == '"'
    decreases |es|
  {
    if |es| > 1 { MembersEnd(es[1..], lay); }
  }

  lemma RepairAfterComma(es: seq<Pair>, lay: Layout, i: nat, space: string)
    requires CleanPairs(es) && lay.Valid() && i < |es| && JsonSpaces(space)
    ensures SafeParse("{" + lay.open + Members(es[..i + 1], lay) + "," + space) == None
  {
    var pairs := es[..i + 1];
    var cleaned := "{" + lay.open + Members(pairs, lay) + ",";
    MembersAreInert(pairs, lay);
    DoneQuotes(pairs, lay);
    ClosedString(cleaned, space);
    LoadsBroken(pairs, lay, "", "}");
    ConcatComma("{" + lay.open, Members(pairs, lay));
  }

  lemma ConcatComma(a: string, b: string)
    ensures a + b + "," + "}" == a + (b + ("," + "" + "}"))
  {
  }

  // ----- The dangling key -----

  lemma KeyDangles(space: string, key: string)
    requires JsonSpaces(space) && CleanText(key) && key != ""
    ensures Dangling("\"" + key + "\":", false)
    ensures Dangling("," + space + "\"" + key + "\":", true)
  {
    var quoted := "\"" + key + "\":";
    assert quoted[1..] == key + "\"" + ":";
    FirstQuote(key, ":");
    assert quoted[1..][|key| + 1..] == ":";
    assert LStrip(":") == ":" && ":"[1..] == "";
    var all := "," + space + "\"" + key + "\":";
    assert all[1..] == space + quoted;
    LStripSpaces(space, quoted);
  }

  lemma {:induction false} FirstQuote(key: string, rest: string)
    requires CleanText(key)
    ensures FirstIndex(key + "\"" + rest, '"') == Some(|key|)
    decreases |key|
  {
    var t := key + "\"" + rest;
    if key == "" {
      assert t[0] == '"';
    } else {
      assert t[1..] == key[1..] + "\"" + rest;
      FirstQuote(key[1..], rest);
    }
  }

  /** What starts inside a key has one quote, not the two of a dangling key. */
  lemma KeyTailQuotes(key: string, k: nat)
    requires CleanText(key) && k <= |key|
    ensures Quotes(key[k..] + "\":") == 1
  {
    NoQuotes(key[k..]);
    NoQuotes(":");
    OneQuote();
    QuotesConcat(key[k..], "\"");
    QuotesConcat(key[k..] + "\"", ":");
    assert key[k..] + "\"" + ":" == key[k..] + "\":";
  }

  lemma FirstKeyHasNoComma(front: string, key: string, r: nat)
    requires '"' !in front && ',' !in front && CleanText(key) && key != ""
    requires r < |front + "\"" + key + "\":"|
    ensures !Dangling((front + "\"" + key + "\":")[r..], true)
  {
    var t := front + "\"" + key + "\":";
    if |front| < r <= |front| + 1 + |key| {
      assert t[r..] == key[r - |front| - 1..] + "\":";
      KeyTailQuotes(key, r - |front| - 1);
    }
    if Dangling(t[r..], true) { DanglingParts(t[r..], true); }
  }

  /** After the colon of the first key: only the second pattern matches, and drops the key. */
  lemma DropsFirstKey(front: string, key: string)
    requires '"' !in front && ',' !in front && CleanText(key) && key != ""
    ensures DropDangling(DropDangling(front + "\"" + key + "\":", true), false) == front
  {
    KeepsFirstKey(front, key);
    var t := front + "\"" + key + "\":";
    assert t[|front|..] == "\"" + key + "\":";
    KeyDangles("", key);
    forall r | 0 <= r < |front|
      ensures !Dangling(t[r..], false)
    {
      assert t[r] == front[r];
    }
    FindIs(t, false, 0, |front|);
    assert t[..|front|] == front;
  }

  lemma KeepsFirstKey(front: string, key: string)
    requires '"' !in front && ',' !in front && CleanText(key) && key != ""
    ensures DropDangling(front + "\"" + key + "\":", true) == front + "\"" + key + "\":"
  {
    var t := front + "\"" + key + "\":";
    forall r | 0 <= r < |t|
      ensures !Dangling(t[r..], true)
    {
      FirstKeyHasNoComma(front, key, r);
    }
    FindIs(t, true, 0, |t|);
    assert t[..|t|] == t;
  }

  lemma TooManyQuotes(front: string, last: string, r: nat)
    requires r < |front| && front[|front| - 1] == '"' && Quotes(last) == 2
    ensures Quotes((front + last)[r..]) >= 3
  {
    var n := |front| - 1;
    assert (front + last)[r..] == front[r..n] + ("\"" + last);
    QuotesConcat(front[r..n], "\"" + last);
    QuotesConcat("\"", last);
    OneQuote();
  }

  /** After the colon of a later key: the first pattern drops the comma and the key. */
  lemma DropsLaterKey(front: string, space: string, key: string)
    requires front != "" && front[|front| - 1] == '"'
    requires JsonSpaces(space) && CleanText(key) && key != ""
    ensures DropDangling(DropDangling(front + ("," + space + "\"" + key + "\":"), true), false) == front
  {
    var last := "," + space + "\"" + key + "\":";
    var t := front + last;
    assert t[|front|..] == last;
    KeyDangles(space, key);
    DanglingParts(last, true);
    forall r | 0 <= r < |front|
      ensures !Dangling(t[r..], true)
    {
      TooManyQuotes(front, last, r);
      if Dangling(t[r..], true) { DanglingParts(t[r..], true); }
    }
    FindIs(t, true, 0, |front|);
    assert t[..|front|] == front;
    NothingDangles(front, false);
  }

  /** Once the dangling key is dropped, the object is closed. */
  lemma DroppedKey(cleaned: string, front: string, space: string)
    requires Inert(cleaned) && StartsWith(cleaned, '{') && cleaned[|cleaned| - 1] == ':' && JsonSpaces(space)
    requires DropDangling(DropDangling(cleaned, true), false) == front
    requires StartsWith(front, '{') && '}' !in front && Quotes(front) % 2 == 0
    ensures SafeParse(cleaned + space) == Loads(front + "}")
  {
    RStripSpaces(cleaned, space);
    assert front[|front| - 1] in front;
    Truncated(cleaned + space, cleaned, front + "}");
  }

  lemma RepairAfterFirstColon(es: seq<Pair>, lay: Layout, space: string)
    requires CleanPairs(es) && lay.Valid() && es != [] && JsonSpaces(space)
    ensures SafeParse("{" + lay.open + "\"" + es[0].key + "\":" + space) == Some(map[])
  {
    var front := "{" + lay.open;
    DropsFirstKey(front, es[0].key);
    SpacesHaveNoQuotes(lay.open);
    QuotesConcat("{", lay.open);
    NoQuotes("{");
    DroppedKey(front + "\"" + es[0].key + "\":", front, space);
    LoadsEmpty(lay.open);
  }

  lemma DroppedLaterKey(front: string, lay: Layout, key: string, space: string)
    requires OpenText(front, 0) && front[|front| - 1] == '"'
    requires CleanText(key) && key != "" && lay.Valid() && JsonSpaces(space)
    ensures SafeParse(front + ("," + lay.afterComma + "\"" + key + "\":") + space) == Loads(front + "}")
  {
    var last := "," + lay.afterComma + "\"" + key + "\":";
    DropsLaterKey(front, lay.afterComma, key);
    DroppedKey(front + last, front, space);
  }

  lemma DoneFront(es: seq<Pair>, lay: Layout)
    requires es != [] && CleanPairs(es) && lay.Valid()
    ensures var front := "{" + lay.open + Members(es, lay);
            OpenText(front, 0) && front[|front| - 1] == '"'
  {
    MembersAreInert(es, lay);
    MembersEnd(es, lay);
    assert Quotes("{" + lay.open + Members(es, lay)) % 2 == 0 by { DoneQuotes(es, lay); FourIsEven(|es|); }
  }

  lemma RepairAfterLaterColon(es: seq<Pair>, lay: Layout, i: nat, space: string)
    requires CleanPairs(es) && lay.Valid() && 0 < i < |es| && JsonSpaces(space)
    ensures var front := "{" + lay.open + Members(es[..i], lay);
            SafeParse(front + ("," + lay.afterComma + "\"" + es[i].key + "\":") + space) == Some(Dictionary(es[..i]))
  {
    var front := "{" + lay.open + Members(es[..i], lay);
    DoneFront(es[..i], lay);
    DroppedLaterKey(front, lay, es[i].key, space);
    LoadsClosed(es[..i], lay, "");
    NothingBetween(front);
  }

  lemma NothingBetween(front: string)
    ensures front + "" + "}" == front + "}"
  {
  }

  lemma RepairAfterColon(es: seq<Pair>, lay: Layout, i: nat, space: string)
    requires CleanPairs(es) && lay.Valid() && i < |es| && JsonSpaces(space)
    ensures SafeParse(Before(es, lay, i) + "\"" + es[i].key + "\":" + space) == Some(Dictionary(es[..i]))
  {
    if i == 0 {
      RepairAfterFirstColon(es, lay, space);
      assert Before(es, lay, 0) == "{" + lay.open;
    } else {
      RepairAfterLaterColon(es, lay, i, space);
      Concat5("{" + lay.open + Members(es[..i], lay), ",", lay.afterComma, "\"", es[i].key, "\":");
      assert Before(es, lay, i) == "{" + lay.open + Members(es[..i], lay) + "," + lay.afterComma;
    }
  }

  // ----- Main theorem -----

  lemma RepairAfterBrace(space: string)
    requires JsonSpaces(space)
    ensures SafeParse("{" + space) == Some(map[])
  {
    NoQuotes("{");
    ClosedString("{", space);
    LoadsEmpty("");
    assert "{" + "" + "}" == "{" + "}";
  }

  lemma RepairWhole(es: seq<Pair>, lay: Layout)
    requires CleanPairs(es) && lay.Valid()
    ensures SafeParse(Print(es, lay)) == Some(Dictionary(es))
  {
    var t := Print(es, lay);
    MembersAreInert(es, lay);
    NothingFenced(t);
    PrintThenLoad(es, lay);
    assert Stripped(t);
    StrippedStays(t);
  }

  /** Every truncation of every printed object is repaired as `Expected` says. */
  lemma RepairIsExact(es: seq<Pair>, lay: Layout, cut: Cut)
    requires CleanPairs(es) && lay.Valid() && Occurs(es, lay, cut)
    ensures SafeParse(Left(es, lay, cut)) == Expected(es, cut)
  {
    match cut
    case Nowhere =>
    case AfterBrace(space) => RepairAfterBrace(space);
    case InKey(i, part) => RepairInKey(es, lay, i, part);
    case AfterKey(i) => RepairAfterKey(es, lay, i);
    case AfterColon(i, space) => RepairAfterColon(es, lay, i, space);
    case InValue(i, part) => RepairInValue(es, lay, i, part);
    case AfterValue(i, space) => RepairAfterValue(es, lay, i, space);
    case AfterComma(i, space) => RepairAfterComma(es, lay, i, space);
    case Whole => RepairWhole(es, lay);
  }

  // ----- Every truncation is one of the cuts -----

  lemma {:induction false} MembersConcat(a: seq<Pair>, b: seq<Pair>, lay: Layout)
    requires a != [] && b != []
    ensures Members(a + b, lay) == Members(a, lay) + ("," + lay.afterComma + Members(b, lay))
    decreases |a|
  {
    assert (a + b)[1..] == a[1..] + b;
    if |a| > 1 { MembersConcat(a[1..], b, lay); }
  }

  /** The text from member `i` on. */
  function From(es: seq<Pair>, lay: Layout, i: nat): string
    requires i < |es|
  {
    Members(es[i..], lay) + lay.close + "}"
  }

  lemma PrintSplits(es: seq<Pair>, lay: Layout, i: nat)
    requires i < |es|
    ensures Print(es, lay) == Before(es, lay, i) + From(es, lay, i)
  {
    assert es == es[..i] + es[i..];
    if i > 0 { MembersConcat(es[..i], es[i..], lay); }
  }

  /** What follows member `i`: the end of the object, or a comma and the next member. */
  function After(es: seq<Pair>, lay: Layout, i: nat): string
    requires i < |es|
  {
    if i + 1 == |es| then lay.close + "}" else "," + lay.afterComma + From(es, lay, i + 1)
  }

  lemma FromSplits(es: seq<Pair>, lay: Layout, i: nat)
    requires i < |es|
    ensures From(es, lay, i) == Member(es[i], lay) + After(es, lay, i)
  {
    if i + 1 < |es| { assert es[i..][1..] == es[i + 1..]; }
  }

  lemma CutMember(p: Pair, lay: Layout, n: nat)
    requires 0 < n <= |Member(p, lay)|
    ensures var k, c := |p.key|, |lay.afterColon|;
            && (n <= k + 1 ==> Member(p, lay)[..n] == "\"" + p.key[..n - 1])
            && (n == k + 2 ==> Member(p, lay)[..n] == "\"" + p.key + "\"")
            && (k + 3 <= n <= k + 3 + c ==> Member(p, lay)[..n] == "\"" + p.key + "\":" + lay.afterColon[..n - k - 3])
            && (k + c + 4 <= n < |Member(p, lay)| ==>
                  n - k - c - 4 <= |p.value|
                  && Member(p, lay)[..n] == "\"" + p.key + "\":" + lay.afterColon + "\"" + p.value[..n - k - c - 4])
  {
  }

  /** The cut of member `i` that leaves `n` of its characters. */
  function CutOfMember(es: seq<Pair>, lay: Layout, i: nat, n: nat): Cut
    requires i < |es| && 0 < n <= |Member(es[i], lay)|
  {
    var k, c := |es[i].key|, |lay.afterColon|;
    if n <= k + 1 then InKey(i, es[i].key[..n - 1])
    else if n == k + 2 then AfterKey(i)
    else if n <= k + 3 + c then AfterColon(i, lay.afterColon[..n - k - 3])
    else if n < |Member(es[i], lay)| then InValue(i, es[i].value[..n - k - c - 4])
    else AfterValue(i, "")
  }

  lemma CutOfMemberLeaves(es: seq<Pair>, lay: Layout, i: nat, n: nat)
    requires i < |es| && 0 < n < |Member(es[i], lay)|
    ensures Occurs(es, lay, CutOfMember(es, lay, i, n))
    ensures Left(es, lay, CutOfMember(es, lay, i, n)) == Before(es, lay, i) + Member(es[i], lay)[..n]
  {
    CutMember(es[i], lay, n);
    var before := Before(es, lay, i);
    var key := es[i].key;
    match CutOfMember(es, lay, i, n)
    case InKey(_, part) => assert before + ("\"" + part) == before + "\"" + part;
    case AfterKey(_) => assert before + ("\"" + key + "\"") == before + "\"" + key + "\"";
    case AfterColon(_, space) => assert before + ("\"" + key + "\":" + space) == before + "\"" + key + "\":" + space;
    case InValue(_, part) => Concat5(before, "\"", key, "\":", lay.afterColon, "\"" + part);
      assert before + "\"" + key + "\":" + lay.afterColon + ("\"" + part)
          == before + "\"" + key + "\":" + lay.afterColon + "\"" + part;
      assert "\"" + key + "\":" + lay.afterColon + ("\"" + part) == "\"" + key + "\":" + lay.afterColon + "\"" + part;
  }

  lemma WholeMember(es: seq<Pair>, lay: Layout, i: nat)
    requires i < |es|
    ensures Before(es, lay, i) + Member(es[i], lay) == "{" + lay.open + Members(es[..i + 1], lay)
  {
    MembersSnoc(es[..i], es[i], lay);
    assert es[..i + 1] == es[..i] + [es[i]];
    if i == 0 { assert es[..0] == []; }
  }

  lemma Prefixes(a: string, b: string, n: nat)
    requires n <= |a| + |b|
    ensures (a + b)[..n] == if n <= |a| then a[..n] else a + b[..n - |a|]
  {
  }

  lemma Associates(a: string, b: string, c: string)
    ensures a + (b + c) == a + b + c
  {
  }

  /** Cuts `n` characters into the text from member `i` on. */
  lemma {:induction false} LocateFrom(es: seq<Pair>, lay: Layout, i: nat, n: nat) returns (cut: Cut)
    requires i < |es| && 0 < n < |From(es, lay, i)|
    ensures Occurs(es, lay, cut) && Left(es, lay, cut) == Before(es, lay, i) + From(es, lay, i)[..n]
    decreases |es| - i
  {
    var m, after := Member(es[i], lay), After(es, lay, i);
    FromSplits(es, lay, i);
    Prefixes(m, after, n);
    if n < |m| {
      cut := CutOfMember(es, lay, i, n);
      CutOfMemberLeaves(es, lay, i, n);
    } else {
      WholeMember(es, lay, i);
      assert n == |m| ==> m[..n] == m + after[..0];
      cut := LocateAfter(es, lay, i, n - |m|);
      Associates(Before(es, lay, i), m, after[..n - |m|]);
    }
  }

  lemma LocateAfter(es: seq<Pair>, lay: Layout, i: nat, n: nat) returns (cut: Cut)
    requires i < |es| && n < |After(es, lay, i)|
    ensures Occurs(es, lay, cut)
    ensures Left(es, lay, cut) == "{" + lay.open + Members(es[..i + 1], lay) + After(es, lay, i)[..n]
    decreases |es| - i, 0
  {
    if i + 1 == |es| {
      Prefixes(lay.close, "}", n);
      cut := AfterValue(i, lay.close[..n]);
    } else if n == 0 {
      cut := AfterValue(i, "");
    } else {
      cut := LocateComma(es, lay, i, n);
    }
  }

  lemma InComma(done: string, space: string, next: string, n: nat)
    requires 0 < n <= 1 + |space|
    ensures done + ("," + space + next)[..n] == done + "," + space[..n - 1]
  {
    assert ("," + space + next)[..n] == "," + space[..n - 1];
    Associates(done, ",", space[..n - 1]);
  }

  lemma PastComma(done: string, space: string, next: string, n: nat)
    requires 1 + |space| <= n <= 1 + |space| + |next|
    ensures done + ("," + space + next)[..n] == done + ("," + space) + next[..n - 1 - |space|]
  {
    Prefixes("," + space, next, n);
    assert n == 1 + |space| ==> ("," + space)[..n] == "," + space + next[..0];
    Associates(done, "," + space, next[..n - 1 - |space|]);
  }

  lemma BeforeNext(es: seq<Pair>, lay: Layout, i: nat)
    requires i + 1 <= |es|
    ensures Before(es, lay, i + 1) == "{" + lay.open + Members(es[..i + 1], lay) + ("," + lay.afterComma)
  {
  }

  lemma LocateComma(es: seq<Pair>, lay: Layout, i: nat, n: nat) returns (cut: Cut)
    requires i + 1 < |es| && 0 < n < |After(es, lay, i)|
    ensures Occurs(es, lay, cut)
    ensures Left(es, lay, cut) == "{" + lay.open + Members(es[..i + 1], lay) + After(es, lay, i)[..n]
    decreases |es| - i, 0, 0
  {
    var done, next := "{" + lay.open + Members(es[..i + 1], lay), From(es, lay, i + 1);
    if n <= 1 + |lay.afterComma| {
      cut := AfterComma(i, lay.afterComma[..n - 1]);
      InComma(done, lay.afterComma, next, n);
    } else {
      cut := LocateFrom(es, lay, i + 1, n - 1 - |lay.afterComma|);
      PastComma(done, lay.afterComma, next, n);
      BeforeNext(es, lay, i);
    }
  }

  /** The cuts are all the truncations: every prefix of the printed text is what some cut leaves. */
  lemma EveryPrefixIsACut(es: seq<Pair>, lay: Layout, n: nat) returns (cut: Cut)
    requires n <= |Print(es, lay)|
    ensures Occurs(es, lay, cut) && Left(es, lay, cut) == Print(es, lay)[..n]
  {
    var t := Print(es, lay);
    if n == 0 {
      cut := Nowhere;
    } else if n == |t| {
      cut := Whole;
      assert t[..n] == t;
    } else if es == [] || n <= 1 + |lay.open| {
      cut := AfterBrace(if es == [] then "" else lay.open[..n - 1]);
      assert t[..n] == Left(es, lay, cut);
    } else {
      PrintSplits(es, lay, 0);
      var before := Before(es, lay, 0);
      assert before == "{" + lay.open;
      cut := LocateFrom(es, lay, 0, n - |before|);
      assert t[..n] == before + From(es, lay, 0)[..n - |before|];
    }
  }

  /** The first `i` members, and perhaps the next with a prefix of its value. */
  ghost predicate AnswerWith(es: seq<Pair>, i: nat, value: Option<string>, answer: map<string, string>) {
    i <= |es| &&
    match value
    case None => answer == Dictionary(es[..i])
    case Some(v) => i < |es| && v <= es[i].value && answer == Dictionary(es[..i] + [Pair(es[i].key, v)])
  }

  lemma ExpectedShape(es: seq<Pair>, lay: Layout, cut: Cut) returns (i: nat, value: Option<string>)
    requires Occurs(es, lay, cut)
    ensures Expected(es, cut).Some? ==> AnswerWith(es, i, value, Expected(es, cut).value)
  {
    i, value := 0, None;
    match cut
    case Nowhere =>
    case InKey(_, _) =>
    case AfterKey(_) =>
    case AfterComma(_, _) =>
    case AfterBrace(_) => assert es[..0] == [];
    case AfterColon(j, _) => i := j;
    case InValue(j, part) => i, value := j, Some(RStrip(part));
    case AfterValue(j, _) => i := j + 1;
    case Whole => i := |es|; assert es[..|es|] == es;
  }

  /** Main theorem: truncate a printed object anywhere, and the repair answers exactly as the
      place of the cut says - with complete members, plus at most one member whose value is a
      prefix of the original, or with the fallback. */
  lemma EveryTruncationIsRepaired(es: seq<Pair>, lay: Layout, n: nat) returns (cut: Cut)
    requires CleanPairs(es) && lay.Valid() && n <= |Print(es, lay)|
    ensures Occurs(es, lay, cut) && Left(es, lay, cut) == Print(es, lay)[..n]
    ensures SafeParse(Print(es, lay)[..n]) == Expected(es, cut)
    ensures Expected(es, cut).Some? ==> exists i, value :: AnswerWith(es, i, value, Expected(es, cut).value)
  {
    cut := EveryPrefixIsACut(es, lay, n);
    RepairIsExact(es, lay, cut);
    var i, value := ExpectedShape(es, lay, cut);
  }

  /** A code fence around an answer, or an opening one before a truncated answer, changes nothing. */
  lemma FencesAreIgnored(text: string)
    requires '`' !in text && text != ""
    ensures SafeParse("```json\n" + text + "\n```") == SafeParse(text)
    ensures SafeParse("```\n" + text + "\n```") == SafeParse(text)
    ensures SafeParse("```json\n" + text) == SafeParse(text)
    ensures SafeParse("```\n" + text) == SafeParse(text)
  {
    assert "```json" + "\n" == "```json\n" && "```" + "\n" == "```\n";
    OpeningFence(text);
    ClosingFence(text);
    NothingFenced(text);
    StripNewlines(text);
  }

  /** Opening fences, before anything. */
  lemma FenceGoes(rest: string)
    requires !("json" <= rest)
    ensures RemoveFences("```json" + rest) == RemoveFences(rest)
    ensures RemoveFences("```" + rest) == RemoveFences(rest)
  {
    var a, b := "```json" + rest, "```" + rest;
    assert a[7..] == rest && "```json" <= a;
    assert b[3..] == rest && "```" <= b;
    JsonAfterTicks(rest);
  }

  lemma JsonAfterTicks(rest: string)
    ensures "```json" <= "```" + rest ==> "json" <= rest
  {
    var b := "```" + rest;
    if "```json" <= b {
      assert "```json"[3..] == "json" && b[3..] == rest;
      assert b[..7] == "```json" && rest[..4] == b[3..7];
    }
  }

  lemma OpeningFence(text: string)
    requires '`' !in text
    ensures RemoveFences("```json\n" + text) == "\n" + text && RemoveFences("```\n" + text) == "\n" + text
  {
    var rest := "\n" + text;
    assert rest[0] == '\n';
    FenceGoes(rest);
    NothingFenced(rest);
    assert "```json" + rest == "```json\n" + text && "```" + rest == "```\n" + text;
  }

  lemma ClosingFence(text: string)
    requires '`' !in text
    ensures RemoveFences("```json" + "\n" + text + "\n```") == "\n" + text + "\n"
    ensures RemoveFences("```" + "\n" + text + "\n```") == "\n" + text + "\n"
  {
    var inner := "\n" + text + "\n";
    var rest := inner + "```";
    assert rest[0] == '\n';
    FenceGoes(rest);
    LastFenceGoes(inner);
    RegroupFence("```json", text);
    RegroupFence("```", text);
  }

  lemma RegroupFence(open: string, text: string)
    ensures open + ("\n" + text + "\n" + "```") == open + "\n" + text + "\n```"
  {
    assert "\n" + "```" == "\n```";
  }

  lemma {:induction false} LastFenceGoes(t: string)
    requires '`' !in t
    ensures RemoveFences(t + "```") == t
    decreases |t|
  {
    var all := t + "```";
    if t == "" {
      assert all == "```" && all[3..] == "";
    } else {
      assert all[0] == t[0] && all[1..] == t[1..] + "```";
      LastFenceGoes(t[1..]);
    }
  }

  lemma StripNewlines(text: string)
    ensures Strip("\n" + text) == Strip(text) && Strip("\n" + text + "\n") == Strip(text)
  {
    assert ("\n" + text)[1..] == text && ("\n" + text + "\n")[1..] == text + "\n";
    LStripBefore(text);
    if LStrip(text) != "" {
      var u := LStrip(text) + "\n";
      assert u[..|u| - 1] == LStrip(text);
    }
  }

  lemma {:induction false} LStripBefore(text: string)
    ensures LStrip(text + "\n") == if LStrip(text) == "" then "" else LStrip(text) + "\n"
    decreases |text|
  {
    if text == "" {
      assert text + "\n" == "\n" && "\n"[1..] == "";
    } else if IsSpace(text[0]) {
      assert (text + "\n")[1..] == text[1..] + "\n";
      LStripBefore(text[1..]);
    }
  }
}
