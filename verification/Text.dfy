/** Python's string operations, on ASCII character classes. */
module Text {
  import opened Wrappers

  /** What `\s` and `str.strip` treat as white space. */
  predicate IsSpace(c: char) {
    c in {' ', '\t', '\n', '\r'} || (0x0b as char <= c <= 0x0c as char) || (0x1c as char <= c <= 0x1f as char)
  }

  predicate IsDigit(c: char) { '0' <= c <= '9' }

  /** `\w` */
  predicate IsWord(c: char) {
    IsDigit(c) || 'a' <= c <= 'z' || 'A' <= c <= 'Z' || c == '_'
  }

  function LStrip(t: string): (r: string)
    ensures |r| <= |t| && (r != "" ==> !IsSpace(r[0]))
  {
    if t != "" && IsSpace(t[0]) then LStrip(t[1..]) else t
  }

  function RStrip(t: string): (r: string)
    ensures r <= t && (r != "" ==> !IsSpace(r[|r| - 1]))
  {
    if t != "" && IsSpace(t[|t| - 1]) then RStrip(t[..|t| - 1]) else t
  }

  function Strip(t: string): (r: string)
    ensures r != "" ==> !IsSpace(r[0]) && !IsSpace(r[|r| - 1])
  {
    RStrip(LStrip(t))
  }

  /** Neither end is white space, so stripping changes nothing. */
  predicate Stripped(t: string) {
    t != "" ==> !IsSpace(t[0]) && !IsSpace(t[|t| - 1])
  }

  lemma StrippedStays(t: string)
    requires Stripped(t)
    ensures Strip(t) == t
  {
  }

  predicate AllSpace(t: string) {
    forall i :: 0 <= i < |t| ==> IsSpace(t[i])
  }

  lemma {:induction false} LStripSpaces(s: string, t: string)
    requires AllSpace(s) && (t == "" || !IsSpace(t[0]))
    ensures LStrip(s + t) == t
    decreases |s|
  {
    if s == "" {
      assert s + t == t;
    } else {
      assert (s + t)[1..] == s[1..] + t;
      LStripSpaces(s[1..], t);
    }
  }

  lemma {:induction false} RStripSpaces(t: string, s: string)
    requires AllSpace(s) && (t == "" || !IsSpace(t[|t| - 1]))
    ensures RStrip(t + s) == t
    decreases |s|
  {
    if s == "" {
      assert t + s == t;
    } else {
      assert (t + s)[..|t + s| - 1] == t + s[..|s| - 1];
      RStripSpaces(t, s[..|s| - 1]);
    }
  }

  function LowerChar(c: char): char {
    if 'A' <= c <= 'Z' then (c as int + 32) as char else c
  }

  function Lower(t: string): (r: string)
    ensures |r| == |t| && forall i :: 0 <= i < |t| ==> r[i] == LowerChar(t[i])
  {
    seq(|t|, i requires 0 <= i < |t| => LowerChar(t[i]))
  }

  /** Exactly the capital letters change. */
  lemma LettersAreLowered(c: char)
    ensures Lower("ABCDEFGHIJKLMNOPQRSTUVWXYZ") == "abcdefghijklmnopqrstuvwxyz"
    ensures c !in "ABCDEFGHIJKLMNOPQRSTUVWXYZ" ==> Lower([c]) == [c]
  {
    var upper, lower := "ABCDEFGHIJKLMNOPQRSTUVWXYZ", "abcdefghijklmnopqrstuvwxyz";
    assert forall i | 0 <= i < 26 :: upper[i] as int == 65 + i && lower[i] as int == 97 + i;
    if 'A' <= c <= 'Z' { assert upper[c as int - 65] == c; }
  }

  /** `needle in t` */
  predicate Contains(t: string, needle: string) {
    exists i :: 0 <= i <= |t| && needle <= t[i..]
  }

  /** `t.split("\n")` */
  function Split(t: string): (lines: seq<string>)
    ensures |lines| >= 1
  {
    if t == "" then [""]
    else if t[0] == '\n' then [""] + Split(t[1..])
    else var rest := Split(t[1..]); [[t[0]] + rest[0]] + rest[1..]
  }

  /** `"\n".join(lines)` */
  function Join(lines: seq<string>): string {
    if lines == [] then ""
    else if |lines| == 1 then lines[0]
    else lines[0] + "\n" + Join(lines[1..])
  }

  lemma {:induction false} JoinSplit(t: string)
    ensures Join(Split(t)) == t
    decreases |t|
  {
    if t != "" {
      var rest := Split(t[1..]);
      JoinSplit(t[1..]);
      if t[0] != '\n' {
        assert t == [t[0]] + t[1..];
        assert Split(t)[1..] == rest[1..];
      } else {
        assert Split(t)[1..] == rest;
        assert t == "\n" + t[1..];
      }
    }
  }

  lemma {:induction false} JoinConcat(a: seq<string>, b: seq<string>)
    requires a != [] && b != []
    ensures Join(a + b) == Join(a) + "\n" + Join(b)
    decreases |a|
  {
    if |a| == 1 {
      assert (a + b)[1..] == b;
    } else {
      assert (a + b)[1..] == a[1..] + b;
      JoinConcat(a[1..], b);
      assert (a + b)[0] == a[0];
    }
  }

  /** Appending a new line of text does not change the first line. */
  lemma {:induction false} FirstLineStays(t: string, u: string)
    ensures Split(t + "\n" + u)[0] == Split(t)[0]
    decreases |t|
  {
    if t == "" {
      assert t + "\n" + u == "\n" + u;
    } else {
      assert (t + "\n" + u)[1..] == t[1..] + "\n" + u;
      assert (t + "\n" + u)[0] == t[0];
      FirstLineStays(t[1..], u);
    }
  }

  function Cut(t: string, n: nat): string {
    if |t| <= n then t else t[..n]
  }
}
