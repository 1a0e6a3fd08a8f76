/** Text as the readers of files and streams see it. */
module Strings {

  /** The white space of JavaScript's `\s` and `trim`. */
  predicate IsSpace(c: char) {
    var n := c as int;
    || (9 <= n <= 13) || n == 0x20 || n == 0xA0 || n == 0x1680 || (0x2000 <= n <= 0x200A)
    || n == 0x2028 || n == 0x2029 || n == 0x202F || n == 0x205F || n == 0x3000 || n == 0xFEFF
  }

  /** What `.` does not match. */
  predicate IsTerminator(c: char) {
    c == '\n' || c == '\r' || c as int == 0x2028 || c as int == 0x2029
  }

  predicate StartsWith(s: string, prefix: string) {
    |prefix| <= |s| && s[..|prefix|] == prefix
  }

  function TrimStart(s: string): (r: string)
    ensures |r| <= |s| && r == s[|s| - |r|..]
    ensures r != "" ==> !IsSpace(r[0])
  {
    if s != "" && IsSpace(s[0]) then TrimStart(s[1..]) else s
  }

  function TrimEnd(s: string): (r: string)
    ensures |r| <= |s| && r == s[..|r|]
    ensures r != "" ==> !IsSpace(r[|r|-1])
  {
    if s != "" && IsSpace(s[|s|-1]) then TrimEnd(s[..|s|-1]) else s
  }

  function Trim(s: string): (r: string)
    ensures r != "" ==> !IsSpace(r[0]) && !IsSpace(r[|r|-1])
  {
    TrimEnd(TrimStart(s))
  }

  /** The text up to the first `c`, which may be all of it. */
  function Before(s: string, c: char): (r: string)
    ensures |r| <= |s| && r == s[..|r|] && c !in r
    ensures |r| < |s| ==> s[|r|] == c
  {
    if s == "" || s[0] == c then "" else
    var r := Before(s[1..], c);
    assert s == [s[0]] + s[1..];
    [s[0]] + r
  }

  lemma {:induction false} BeforeFirst(line: string, c: char, rest: string)
    requires c !in line
    ensures Before(line + [c] + rest, c) == line
  {
    var text := line + [c] + rest;
    if line != "" {
      BeforeFirst(line[1..], c, rest);
      assert text[1..] == line[1..] + [c] + rest;
      assert line == [line[0]] + line[1..];
    }
  }

  lemma CutFirst(s: string, c: char)
    requires |Before(s, c)| < |s|
    ensures s == Before(s, c) + [c] + s[|Before(s, c)| + 1..]
  {
  }

  lemma BeforeNone(line: string, c: char)
    requires c !in line
    ensures Before(line, c) == line
  {
    assert forall i :: 0 <= i < |line| ==> line[i] in line;
  }

  // --- Trimming ---

  predicate IsBlank(s: string) {
    forall i :: 0 <= i < |s| ==> IsSpace(s[i])
  }

  /** Nothing to trim at either end. */
  predicate IsTight(s: string) {
    s != "" && !IsSpace(s[0]) && !IsSpace(s[|s|-1])
  }

  lemma {:induction false} TrimStartOf(space: string, s: string)
    requires IsBlank(space) && (s != "" ==> !IsSpace(s[0]))
    ensures TrimStart(space + s) == s
  {
    if space == "" {
      assert space + s == s;
    } else {
      assert (space + s)[1..] == space[1..] + s;
      TrimStartOf(space[1..], s);
    }
  }

  lemma {:induction false} TrimEndOf(s: string, space: string)
    requires IsBlank(space) && (s != "" ==> !IsSpace(s[|s|-1]))
    ensures TrimEnd(s + space) == s
  {
    if space == "" {
      assert s + space == s;
    } else {
      assert (s + space)[..|s + space| - 1] == s + space[..|space|-1];
      TrimEndOf(s, space[..|space|-1]);
    }
  }

  lemma TrimTwice(s: string)
    ensures Trim(Trim(s)) == Trim(s)
  {
    var t := Trim(s);
    assert TrimStart(t) == t && TrimEnd(t) == t;
  }

  lemma TrimAfterPrefix(prefix: string, s: string)
    requires prefix != "" && !IsSpace(prefix[0]) && !IsSpace(prefix[|prefix|-1])
    ensures Trim(prefix + s) == prefix + TrimEnd(s)
  {
    TrimEndAfterPrefix(prefix, s);
  }

  lemma {:induction false} TrimEndAfterPrefix(prefix: string, s: string)
    requires prefix != "" && !IsSpace(prefix[|prefix|-1])
    ensures TrimEnd(prefix + s) == prefix + TrimEnd(s)
  {
    if s == "" {
      assert prefix + s == prefix;
    } else if IsSpace(s[|s|-1]) {
      assert (prefix + s)[..|prefix + s|-1] == prefix + s[..|s|-1];
      TrimEndAfterPrefix(prefix, s[..|s|-1]);
    }
  }

  lemma {:induction false} TrimmedIsBlank(s: string)
    ensures IsBlank(s[|TrimEnd(s)|..])
  {
    if s != "" && IsSpace(s[|s|-1]) {
      TrimmedIsBlank(s[..|s|-1]);
      assert s[|TrimEnd(s)|..] == s[..|s|-1][|TrimEnd(s)|..] + [s[|s|-1]];
    }
  }

  lemma {:induction false} TrimEndSurvives(s: string)
    requires s != "" && !IsSpace(s[0])
    ensures TrimEnd(s) != ""
  {
    if IsSpace(s[|s|-1]) {
      TrimEndSurvives(s[..|s|-1]);
    }
  }

  lemma TrimIsPrefix(s: string)
    requires s != "" && !IsSpace(s[0])
    ensures |Trim(s)| <= |s| && Trim(s) == s[..|Trim(s)|]
  {
  }

  // --- What trimming leaves ---

  /** The 25 characters that count as white space. */
  lemma SpacesAre(c: char)
    ensures IsSpace(c) <==> (c in "\t\n\U{b}\U{c}\r \U{a0}\U{1680}\U{2000}\U{2001}\U{2002}\U{2003}\U{2004}\U{2005}\U{2006}\U{2007}\U{2008}\U{2009}\U{200a}\U{2028}\U{2029}\U{202f}\U{205f}\U{3000}\U{feff}")
  {
  }

  /** `s` is `x` with white space around it. */
  ghost predicate IsPadded(s: string, a: string, x: string, b: string) {
    s == a + x + b && IsBlank(a) && IsBlank(b)
  }

  lemma {:induction false} TrimStartLeaves(s: string)
    ensures IsBlank(s[..|s| - |TrimStart(s)|])
  {
    if s != "" && IsSpace(s[0]) {
      TrimStartLeaves(s[1..]);
      assert s[..|s| - |TrimStart(s)|] == [s[0]] + s[1..][..|s[1..]| - |TrimStart(s)|];
    }
  }

  lemma TrimLeaves(s: string) returns (a: string, b: string)
    ensures IsPadded(s, a, Trim(s), b) && |a| == |s| - |TrimStart(s)|
  {
    var t := TrimStart(s);
    a, b := s[..|s| - |t|], t[|TrimEnd(t)|..];
    TrimStartLeaves(s);
    TrimmedIsBlank(t);
    TwoCuts(s, t, Trim(s));
  }

  lemma TwoCuts(s: string, t: string, x: string)
    requires |x| <= |t| <= |s| && t == s[|s| - |t|..] && x == t[..|x|]
    ensures s == s[..|s| - |t|] + x + t[|x|..]
  {
    assert t == x + t[|x|..];
  }

  lemma TrimOfPadded(a: string, x: string, b: string)
    requires IsBlank(a) && IsBlank(b) && (x == "" || IsTight(x))
    ensures Trim(a + x + b) == x
  {
    if x == "" {
      assert a + x + b == a + b;
      assert IsBlank(a + b);
      BlankTrims(a + b);
    } else {
      assert a + x + b == a + (x + b);
      assert (x + b)[0] == x[0];
      TrimStartOf(a, x + b);
      TrimEndOf(x, b);
    }
  }

  lemma BlankTrims(s: string)
    requires IsBlank(s)
    ensures Trim(s) == ""
  {
    TrimStartOf(s, "");
    assert s + "" == s;
  }

  lemma BlankExactlyWhen(s: string)
    ensures Trim(s) == "" <==> IsBlank(s)
  {
    if IsBlank(s) {
      BlankTrims(s);
    }
    if Trim(s) == "" {
      var a, b := TrimLeaves(s);
      assert s == a + b;
    }
  }

  /** `s` is `x` with white space around it, and `x` itself has none at its ends. */
  ghost predicate IsCore(s: string, x: string) {
    (x == "" || IsTight(x)) && exists a, b :: IsPadded(s, a, x, b)
  }

  lemma TrimmedIsCore(s: string)
    ensures IsCore(s, Trim(s))
  {
    var a, b := TrimLeaves(s);
  }

  lemma CoreIsTrimmed(s: string, x: string)
    requires IsCore(s, x)
    ensures Trim(s) == x
  {
    var a, b :| IsPadded(s, a, x, b);
    TrimOfPadded(a, x, b);
  }

  /** Trimming leaves what stands between the white space. */
  lemma TrimExactlyWhen(s: string, x: string)
    ensures Trim(s) == x <==> IsCore(s, x)
  {
    TrimmedIsCore(s);
    if IsCore(s, x) {
      CoreIsTrimmed(s, x);
    }
  }
}
