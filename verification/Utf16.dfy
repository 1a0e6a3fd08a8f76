/** Strings as JavaScript measures and indexes them: by UTF-16 code units. */
module Utf16 {

  /** A character outside the basic plane is two units. */
  function UnitsOf(c: char): seq<int> {
    var n := c as int;
    if n < 0x1_0000 then [n] else [0xD800 + (n - 0x1_0000) / 0x400, 0xDC00 + (n - 0x1_0000) % 0x400]
  }

  function Units(s: string): seq<int> {
    if s == "" then [] else Units(s[..|s|-1]) + UnitsOf(s[|s|-1])
  }

  /** `length` */
  function Length(s: string): nat {
    |Units(s)|
  }

  lemma UnitsOfOne(c: char)
    ensures Units([c]) == UnitsOf(c)
  {
    assert [c][..0] == "";
  }

  /** The last unit tells the last character: no character is a trailing surrogate on its own. */
  lemma SameLast(a: seq<int>, c: char, b: seq<int>, d: char)
    requires a + UnitsOf(c) == b + UnitsOf(d)
    ensures c == d && a == b
  {
    var x, y := UnitsOf(c), UnitsOf(d);
    var s := a + x;
    assert s[|s|-1] == x[|x|-1] && s[|s|-1] == y[|y|-1];
    assert |x| == |y|;
    assert a == s[..|s|-|x|] && b == s[..|s|-|y|];
    assert x == s[|s|-|x|..] && y == s[|s|-|y|..];
  }

  lemma {:induction false} UnitsAreUnique(s: string, t: string)
    ensures Units(s) == Units(t) <==> s == t
  {
    if Units(s) == Units(t) && s != "" && t != "" {
      SameLast(Units(s[..|s|-1]), s[|s|-1], Units(t[..|t|-1]), t[|t|-1]);
      UnitsAreUnique(s[..|s|-1], t[..|t|-1]);
      assert s == s[..|s|-1] + [s[|s|-1]] && t == t[..|t|-1] + [t[|t|-1]];
    }
  }
}
