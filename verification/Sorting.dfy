/** Stable sorting by a key, and the order in which JavaScript compares strings. */
module Sorting {
  import opened Lists
  import opened Utf16

  ghost predicate TotalOrder<K(!new)>(le: (K, K) -> bool) {
    && (forall a, b :: le(a, b) || le(b, a))
    && (forall a, b :: le(a, b) && le(b, a) ==> a == b)
    && (forall a, b, c :: le(a, b) && le(b, c) ==> le(a, c))
  }

  /** Puts `x` in front of the first element that does not come before it. */
  function Insert<T, K>(x: T, s: seq<T>, key: T -> K, le: (K, K) -> bool): (r: seq<T>)
    ensures multiset(r) == multiset{x} + multiset(s)
  {
    if s == [] then [x]
    else if le(key(x), key(s[0])) then [x] + s
    else
      assert s == [s[0]] + s[1..];
      [s[0]] + Insert(x, s[1..], key, le)
  }

  /** The stable sort of `s`: what `Array.prototype.sort` returns. */
  function Sort<T, K>(s: seq<T>, key: T -> K, le: (K, K) -> bool): (r: seq<T>)
    ensures multiset(r) == multiset(s)
  {
    if s == [] then []
    else
      assert s == [s[0]] + s[1..];
      Insert(s[0], Sort(s[1..], key, le), key, le)
  }

  ghost predicate Sorted<T, K>(s: seq<T>, key: T -> K, le: (K, K) -> bool) {
    forall i, j :: 0 <= i < j < |s| ==> le(key(s[i]), key(s[j]))
  }

  /** Equal keys only on equal elements. */
  ghost predicate KeysIdentify<T, K>(s: seq<T>, key: T -> K) {
    forall i, j :: 0 <= i < |s| && 0 <= j < |s| && key(s[i]) == key(s[j]) ==> s[i] == s[j]
  }

  lemma SameElements<T>(s: seq<T>, t: seq<T>, x: T)
    requires multiset(s) == multiset(t)
    ensures |s| == |t| && (x in s <==> x in t)
  {
    assert |multiset(s)| == |s| && |multiset(t)| == |t|;
    assert x in s <==> x in multiset(s);
    assert x in t <==> x in multiset(t);
  }

  lemma {:induction false} InsertIsSorted<T, K(!new)>(x: T, s: seq<T>, key: T -> K, le: (K, K) -> bool)
    requires TotalOrder(le) && Sorted(s, key, le)
    ensures Sorted(Insert(x, s, key, le), key, le)
  {
    if s != [] && !le(key(x), key(s[0])) {
      var r := Insert(x, s[1..], key, le);
      InsertIsSorted(x, s[1..], key, le);
      forall i | 0 <= i < |r| ensures le(key(s[0]), key(r[i])) {
        assert r[i] in multiset(r);
        if r[i] != x {
          assert r[i] in s[1..];
        }
      }
    }
  }

  lemma {:induction false} SortIsSorted<T, K(!new)>(s: seq<T>, key: T -> K, le: (K, K) -> bool)
    requires TotalOrder(le)
    ensures Sorted(Sort(s, key, le), key, le)
  {
    if s != [] {
      SortIsSorted(s[1..], key, le);
      InsertIsSorted(s[0], Sort(s[1..], key, le), key, le);
    }
  }

  lemma SortedHeadsAgree<T, K(!new)>(s: seq<T>, t: seq<T>, key: T -> K, le: (K, K) -> bool)
    requires TotalOrder(le) && KeysIdentify(s, key) && s != [] && t != []
    requires Sorted(s, key, le) && Sorted(t, key, le) && s[0] in t && t[0] in s
    ensures s[0] == t[0]
  {
    var i :| 0 <= i < |t| && t[i] == s[0];
    var j :| 0 <= j < |s| && s[j] == t[0];
    assert le(key(s[0]), key(s[j])) && le(key(t[0]), key(t[i]));
  }

  lemma SameTails<T>(s: seq<T>, t: seq<T>)
    requires multiset(s) == multiset(t) && s != [] && t != [] && s[0] == t[0]
    ensures multiset(s[1..]) == multiset(t[1..])
  {
    assert s == [s[0]] + s[1..] && t == [t[0]] + t[1..];
    assert multiset(s[1..]) == multiset(s) - multiset{s[0]} == multiset(t[1..]);
  }

  /** Two sorted sequences with the same elements are the same, if the keys identify the elements. */
  lemma {:induction false} SortedIsUnique<T, K(!new)>(s: seq<T>, t: seq<T>, key: T -> K, le: (K, K) -> bool)
    requires TotalOrder(le) && KeysIdentify(s, key)
    requires Sorted(s, key, le) && Sorted(t, key, le) && multiset(s) == multiset(t)
    ensures s == t
  {
    assert |s| == |multiset(s)| == |multiset(t)| == |t|;
    if s != [] {
      SameElements(s, t, s[0]);
      SameElements(s, t, t[0]);
      SortedHeadsAgree(s, t, key, le);
      SameTails(s, t);
      SortedIsUnique(s[1..], t[1..], key, le);
    }
  }

  /** Sorting forgets the original order, if the keys identify the elements. */
  lemma SortForgetsOrder<T, K(!new)>(s: seq<T>, t: seq<T>, key: T -> K, le: (K, K) -> bool)
    requires TotalOrder(le) && KeysIdentify(s, key) && multiset(s) == multiset(t)
    ensures Sort(s, key, le) == Sort(t, key, le)
  {
    var u, v := Sort(s, key, le), Sort(t, key, le);
    SortIsSorted(s, key, le);
    SortIsSorted(t, key, le);
    forall i, j | 0 <= i < |u| && 0 <= j < |u| && key(u[i]) == key(u[j]) ensures u[i] == u[j] {
      SameElements(u, s, u[i]);
      SameElements(u, s, u[j]);
    }
    SortedIsUnique(u, v, key, le);
  }

  ghost predicate DistinctKeys<T, K>(s: seq<T>, key: T -> K) {
    forall i, j :: 0 <= i < j < |s| ==> key(s[i]) != key(s[j])
  }

  lemma {:induction false} InsertKeepsDistinctKeys<T, K>(x: T, s: seq<T>, key: T -> K, le: (K, K) -> bool)
    requires DistinctKeys(s, key) && forall i :: 0 <= i < |s| ==> key(s[i]) != key(x)
    ensures DistinctKeys(Insert(x, s, key, le), key)
  {
    if s != [] && !le(key(x), key(s[0])) {
      var r := Insert(x, s[1..], key, le);
      InsertKeepsDistinctKeys(x, s[1..], key, le);
      forall i | 0 <= i < |r| ensures key(s[0]) != key(r[i]) {
        assert r[i] in multiset(r);
        if r[i] != x {
          assert r[i] in s[1..];
        }
      }
    }
  }

  lemma {:induction false} SortKeepsDistinctKeys<T, K>(s: seq<T>, key: T -> K, le: (K, K) -> bool)
    requires DistinctKeys(s, key)
    ensures DistinctKeys(Sort(s, key, le), key)
  {
    if s != [] {
      var r := Sort(s[1..], key, le);
      SortKeepsDistinctKeys(s[1..], key, le);
      forall i | 0 <= i < |r| ensures key(r[i]) != key(s[0]) {
        SameElements(r, s[1..], r[i]);
      }
      InsertKeepsDistinctKeys(s[0], r, key, le);
    }
  }

  ghost predicate NoDuplicates<T>(s: seq<T>) {
    forall i, j :: 0 <= i < j < |s| ==> s[i] != s[j]
  }

  lemma {:induction false} DistinctCounts<T>(s: seq<T>, x: T)
    requires NoDuplicates(s)
    ensures multiset(s)[x] == if x in s then 1 else 0
  {
    if s != [] {
      DistinctCounts(s[1..], x);
      assert s == [s[0]] + s[1..];
    }
  }

  /** Sequences without duplicates and with the same elements are permutations of each other. */
  lemma DistinctSameElements<T>(s: seq<T>, t: seq<T>)
    requires NoDuplicates(s) && NoDuplicates(t) && forall x :: x in s <==> x in t
    ensures multiset(s) == multiset(t)
  {
    forall x ensures multiset(s)[x] == multiset(t)[x] {
      DistinctCounts(s, x);
      DistinctCounts(t, x);
    }
  }

  // --- Integers and strings as keys ---

  predicate IntLe(a: int, b: int) { a <= b }

  /** `s[k]` has the least key, and is the first with it. */
  ghost predicate IsFirstLeast<T>(s: seq<T>, key: T -> int, k: int) {
    && 0 <= k < |s|
    && (forall i :: 0 <= i < |s| ==> key(s[k]) <= key(s[i]))
    && (forall i :: 0 <= i < k ==> key(s[k]) < key(s[i]))
  }

  /** A stable sort begins with the first of the least elements. */
  lemma {:induction false} HeadOfSort<T>(s: seq<T>, key: T -> int) returns (k: nat)
    requires s != []
    ensures IsFirstLeast(s, key, k) && Sort(s, key, IntLe) != [] && Sort(s, key, IntLe)[0] == s[k]
  {
    if |s| == 1 {
      k := 0;
    } else {
      var j := HeadOfSort(s[1..], key);
      k := if key(s[0]) <= key(s[1..][j]) then 0 else j + 1;
      assert forall i :: 1 <= i < |s| ==> s[i] == s[1..][i - 1];
    }
  }

  lemma IntLeIsTotal()
    ensures TotalOrder(IntLe)
  {
  }

  function Self<T>(x: T): T { x }

  /** The place of a character in the order of UTF-16 code units: a character outside
      the Basic Multilingual Plane begins with a surrogate, which comes before U+E000. */
  function Utf16Rank(c: char): int {
    if c as int < 0xD800 then c as int
    else if c as int < 0x10000 then c as int + 0x100000
    else c as int - 0x10000 + 0xD800
  }

  lemma RankIdentifies(c: char, d: char)
    requires Utf16Rank(c) == Utf16Rank(d)
    ensures c == d
  {
    assert c as int == d as int;
  }

  /** JavaScript's `<=` on strings: lexicographic, by UTF-16 code units. */
  predicate StringLe(a: string, b: string) {
    a == "" || (b != "" &&
      (Utf16Rank(a[0]) < Utf16Rank(b[0]) || (a[0] == b[0] && StringLe(a[1..], b[1..]))))
  }

  lemma {:induction false} StringLeTotal(a: string, b: string)
    ensures StringLe(a, b) || StringLe(b, a)
  {
    if a != "" && b != "" && Utf16Rank(a[0]) == Utf16Rank(b[0]) {
      RankIdentifies(a[0], b[0]);
      StringLeTotal(a[1..], b[1..]);
    }
  }

  lemma {:induction false} StringLeAntisymmetric(a: string, b: string)
    requires StringLe(a, b) && StringLe(b, a)
    ensures a == b
  {
    if a != "" && b != "" {
      StringLeAntisymmetric(a[1..], b[1..]);
      assert a == [a[0]] + a[1..] && b == [b[0]] + b[1..];
    }
  }

  lemma {:induction false} StringLeTransitive(a: string, b: string, c: string)
    requires StringLe(a, b) && StringLe(b, c)
    ensures StringLe(a, c)
  {
    if a != "" && a[0] == b[0] && b[0] == c[0] {
      StringLeTransitive(a[1..], b[1..], c[1..]);
    }
  }

  lemma StringLeIsTotal()
    ensures TotalOrder(StringLe)
  {
    forall a, b ensures StringLe(a, b) || StringLe(b, a) {
      StringLeTotal(a, b);
    }
    forall a, b | StringLe(a, b) && StringLe(b, a) ensures a == b {
      StringLeAntisymmetric(a, b);
    }
    forall a, b, c | StringLe(a, b) && StringLe(b, c) ensures StringLe(a, c) {
      StringLeTransitive(a, b, c);
    }
  }

  // --- The order is that of the code units ---

  /** `x` is a prefix of `y`, or less than `y` at the first place where they differ. */
  ghost predicate ComesFirst(x: seq<int>, y: seq<int>) {
    || (|x| <= |y| && y[..|x|] == x)
    || exists k :: IsFirstDifference(x, y, k) && x[k] < y[k]
  }

  ghost predicate IsFirstDifference(x: seq<int>, y: seq<int>, k: int) {
    0 <= k < |x| && k < |y| && x[..k] == y[..k] && x[k] != y[k]
  }

  lemma ComesFirstByHead(x: seq<int>, y: seq<int>)
    requires x != [] && y != []
    ensures ComesFirst(x, y) <==> x[0] < y[0] || (x[0] == y[0] && ComesFirst(x[1..], y[1..]))
  {
    if x[0] == y[0] {
      forall k | 0 <= k ensures IsFirstDifference(x, y, k + 1) <==> IsFirstDifference(x[1..], y[1..], k) {
        if k < |x| - 1 && k < |y| - 1 {
          assert x[..k+1] == [x[0]] + x[1..][..k] && y[..k+1] == [y[0]] + y[1..][..k];
        }
      }
      if k :| IsFirstDifference(x, y, k) && x[k] < y[k] {
        assert IsFirstDifference(x[1..], y[1..], k - 1);
      }
      if k :| IsFirstDifference(x[1..], y[1..], k) && x[1..][k] < y[1..][k] {
        assert IsFirstDifference(x, y, k + 1);
      }
      assert x == [x[0]] + x[1..] && y == [y[0]] + y[1..];
      if |x| <= |y| {
        assert y[..|x|] == [y[0]] + y[1..][..|x|-1];
      }
    } else {
      assert IsFirstDifference(x, y, 0);
      assert forall k :: 0 < k < |x| && k < |y| ==> x[..k][0] != y[..k][0];
    }
  }

  lemma {:induction false} UnitsFromHead(s: string)
    requires s != ""
    ensures Units(s) == UnitsOf(s[0]) + Units(s[1..])
  {
    if |s| == 1 {
      UnitsOfOne(s[0]);
      assert s == [s[0]];
    } else {
      var front, tail, last := s[..|s|-1], s[1..], s[|s|-1];
      UnitsFromHead(front);
      assert tail[..|tail|-1] == front[1..] && tail[|tail|-1] == last;
      Regroup(UnitsOf(s[0]), Units(front[1..]), UnitsOf(last));
    }
  }

  /** Two characters compare like the units that they are made of, whatever follows. */
  lemma CharacterDecides(c: char, d: char, x: seq<int>, y: seq<int>)
    ensures ComesFirst(UnitsOf(c) + x, UnitsOf(d) + y) <==> Utf16Rank(c) < Utf16Rank(d) || (c == d && ComesFirst(x, y))
  {
    var u, v := UnitsOf(c) + x, UnitsOf(d) + y;
    ComesFirstByHead(u, v);
    if u[0] == v[0] {
      assert |UnitsOf(c)| == |UnitsOf(d)|;
      if |UnitsOf(c)| == 2 {
        assert u[1..] == [UnitsOf(c)[1]] + x && v[1..] == [UnitsOf(d)[1]] + y;
        ComesFirstByHead(u[1..], v[1..]);
        assert u[1..][1..] == x && v[1..][1..] == y;
      } else {
        assert u[1..] == x && v[1..] == y;
      }
    }
  }

  /** The order of JavaScript: by the first code unit that differs, and a prefix first. */
  lemma {:induction false} StringLeExactlyWhen(a: string, b: string)
    ensures StringLe(a, b) <==> ComesFirst(Units(a), Units(b))
  {
    if a == "" {
      assert Units(b)[..0] == [];
    } else if b == "" {
      UnitsFromHead(a);
    } else {
      UnitsFromHead(a);
      UnitsFromHead(b);
      CharacterDecides(a[0], b[0], Units(a[1..]), Units(b[1..]));
      StringLeExactlyWhen(a[1..], b[1..]);
    }
  }

  lemma MapAfterFirst<T, U>(f: T -> U, x: T, s: seq<T>)
    ensures Map(f, [x] + s) == [f(x)] + Map(f, s)
    ensures s != [] ==> Map(f, s)[1..] == Map(f, s[1..]) && Map(f, s)[0] == f(s[0])
  {
  }

  /** Mapping and sorting commute when the key is kept. */
  lemma {:induction false} InsertMapped<T, U, K>(f: T -> U, x: T, s: seq<T>, key: T -> K, to: U -> K, le: (K, K) -> bool)
    requires forall y :: to(f(y)) == key(y)
    ensures Insert(f(x), Map(f, s), to, le) == Map(f, Insert(x, s, key, le))
  {
    MapAfterFirst(f, x, s);
    if s != [] && !le(key(x), key(s[0])) {
      InsertMapped(f, x, s[1..], key, to, le);
      MapAfterFirst(f, s[0], Insert(x, s[1..], key, le));
    }
  }

  lemma {:induction false} SortMapped<T, U, K>(f: T -> U, s: seq<T>, key: T -> K, to: U -> K, le: (K, K) -> bool)
    requires forall y :: to(f(y)) == key(y)
    ensures Sort(Map(f, s), to, le) == Map(f, Sort(s, key, le))
  {
    if s != [] {
      SortMapped(f, s[1..], key, to, le);
      assert Map(f, s)[1..] == Map(f, s[1..]);
      InsertMapped(f, s[0], Sort(s[1..], key, le), key, to, le);
    }
  }

  /** JavaScript's `sort()` of an array of strings. */
  function SortStrings(s: seq<string>): seq<string> {
    Sort(s, Self<string>, StringLe)
  }

  /** Sorted strings are equal exactly when the lists have the same elements, each as often. */
  lemma SortStringsForgetsOrder(s: seq<string>, t: seq<string>)
    ensures SortStrings(s) == SortStrings(t) <==> multiset(s) == multiset(t)
  {
    StringLeIsTotal();
    if multiset(s) == multiset(t) {
      SortForgetsOrder(s, t, Self<string>, StringLe);
    }
  }
}
