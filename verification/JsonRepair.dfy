/**
 Repair of truncated JSON answers, on flat objects from strings to strings.

 `Loads` is the part of a JSON parser (RFC 8259, sections 4 and 7) that such objects exercise:
 texts with other values or with escapes are outside the model.
 */
module JsonRepair {
  import opened Wrappers
  import opened Text

  // ----- The JSON parser -----

  predicate IsJsonSpace(c: char) { c in {' ', '\t', '\n', '\r'} }

  predicate JsonSpaces(t: string) { forall i :: 0 <= i < |t| ==> IsJsonSpace(t[i]) }

  function SkipSpace(t: string): (r: string)
    ensures |r| <= |t| && forall c :: c in r ==> c in t
  {
    if t != "" && IsJsonSpace(t[0]) then SkipSpace(t[1..]) else t
  }

  datatype Read<T> = Fail | Ok(value: T, rest: string)

  /** The rest of a string literal, after its opening quote. */
  function ReadBody(t: string): (r: Read<string>)
    ensures r.Ok? ==> |r.rest| < |t| && forall c :: c in r.rest ==> c in t
  {
    if t == "" || t[0] < ' ' || t[0] == '\\' then Fail
    else if t[0] == '"' then Ok("", t[1..])
    else
      match ReadBody(t[1..])
      case Fail => Fail
      case Ok(s, rest) => Ok([t[0]] + s, rest)
  }

  function ReadString(t: string): (r: Read<string>)
    ensures r.Ok? ==> |r.rest| < |t| && forall c :: c in r.rest ==> c in t
  {
    if t != "" && t[0] == '"' then ReadBody(t[1..]) else Fail
  }

  predicate StartsWith(t: string, c: char) { t != "" && t[0] == c }

  /** One `"key": "value"` pair. */
  function ReadMember(t: string): (r: Read<(string, string)>)
    ensures r.Ok? ==> |r.rest| < |t| && forall c :: c in r.rest ==> c in t
  {
    match ReadString(t)
    case Fail => Fail
    case Ok(key, afterKey) =>
      var colon := SkipSpace(afterKey);
      if !StartsWith(colon, ':') then Fail
      else
        match ReadString(SkipSpace(colon[1..]))
        case Fail => Fail
        case Ok(value, rest) => Ok((key, value), rest)
  }

  /** The members of a non-empty object, up to and including its closing brace. */
  function ReadMembers(t: string, acc: map<string, string>): (r: Read<map<string, string>>)
    ensures r.Ok? ==> '}' in t
    decreases |t|
  {
    match ReadMember(t)
    case Fail => Fail
    case Ok((key, value), afterMember) =>
      var next := SkipSpace(afterMember);
      if StartsWith(next, ',') then ReadMembers(SkipSpace(next[1..]), acc[key := value])
      else if StartsWith(next, '}') then Ok(acc[key := value], next[1..])
      else Fail
  }

  function Loads(t: string): Option<map<string, string>> {
    var start := SkipSpace(t);
    if !StartsWith(start, '{') then None
    else
      var inner := SkipSpace(start[1..]);
      var parsed := if StartsWith(inner, '}') then Ok(map[], inner[1..]) else ReadMembers(inner, map[]);
      if parsed.Ok? && SkipSpace(parsed.rest) == "" then Some(parsed.value) else None
  }

  // ----- safe_parse_json -----

  /** Drops every "```" and the word json right after it. */
  function RemoveFences(t: string): string
    decreases |t|
  {
    if t == "" then ""
    else if "```json" <= t then RemoveFences(t[7..])
    else if "```" <= t then RemoveFences(t[3..])
    else [t[0]] + RemoveFences(t[1..])
  }

  function FirstIndex(t: string, c: char): (r: Option<nat>)
    ensures r.Some? ==> r.value < |t| && t[r.value] == c && c !in t[..r.value]
    ensures r.None? ==> c !in t
  {
    if t == "" then None
    else if t[0] == c then Some(0)
    else
      assert t == [t[0]] + t[1..];
      match FirstIndex(t[1..], c)
      case None => None
      case Some(i) => assert t[..i + 1] == [t[0]] + t[1..][..i]; Some(i + 1)
  }

  function LastIndex(t: string, c: char): (r: Option<nat>)
    ensures r.Some? ==> r.value < |t| && t[r.value] == c
    ensures r.None? ==> c !in t
  {
    if t == "" then None
    else if t[|t| - 1] == c then Some(|t| - 1)
    else LastIndex(t[..|t| - 1], c)
  }

  /** From the first opening brace to the last closing one after it. */
  function Outermost(t: string): Option<string> {
    match (FirstIndex(t, '{'), LastIndex(t, '}'))
    case (Some(i), Some(j)) => if i < j then Some(t[i..j + 1]) else None
    case _ => None
  }

  /** The whole of `u` is a dangling key: an optional comma, a quoted text, a colon, white space. */
  predicate Dangling(u: string, comma: bool) {
    (comma ==> StartsWith(u, ',')) &&
    var quoted := if comma then LStrip(u[1..]) else u;
    StartsWith(quoted, '"') &&
    match FirstIndex(quoted[1..], '"')
    case None => false
    case Some(n) =>
      n > 0 &&
      var colon := LStrip(quoted[1..][n + 1..]);
      StartsWith(colon, ':') && LStrip(colon[1..]) == ""
  }

  /** The leftmost position from `p` on where a dangling key reaches the end. */
  function FindDangling(t: string, comma: bool, p: nat): (r: nat)
    requires p <= |t|
    ensures p <= r <= |t|
    decreases |t| - p
  {
    if p == |t| || Dangling(t[p..], comma) then p else FindDangling(t, comma, p + 1)
  }

  function DropDangling(t: string, comma: bool): string {
    t[..FindDangling(t, comma, 0)]
  }

  function Quotes(t: string): nat {
    if t == "" then 0 else Quotes(t[..|t| - 1]) + (if t[|t| - 1] == '"' then 1 else 0)
  }

  predicate EndsWithBrace(t: string) { t != "" && t[|t| - 1] == '}' }

  /** Closes an open string and the object. */
  function Close(t: string): string {
    if EndsWithBrace(t) then t else (if Quotes(t) % 2 != 0 then t + "\"" else t) + "}"
  }

  function Repaired(cleaned: string): string {
    Close(DropDangling(DropDangling(cleaned, true), false))
  }

  /** Parses the text, or else its outermost block in braces. */
  function LoadsBlock(t: string): Option<map<string, string>> {
    match Loads(t)
    case Some(m) => Some(m)
    case None =>
      match Outermost(t)
      case Some(block) => Loads(block)
      case None => None
  }

  /** `None` stands for the fallback dictionary. */
  function SafeParse(text: string): Option<map<string, string>> {
    if text == "" then None
    else
      var cleaned := Strip(RemoveFences(text));
      match LoadsBlock(cleaned)
      case Some(m) => Some(m)
      case None => LoadsBlock(Repaired(cleaned))
  }
}
