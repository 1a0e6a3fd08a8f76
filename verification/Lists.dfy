/** List operations shared by the models. */
module Lists {

  function Map<T, U>(f: T -> U, s: seq<T>): (r: seq<U>)
    ensures |r| == |s| && forall i :: 0 <= i < |s| ==> r[i] == f(s[i])
  {
    if s == [] then [] else Map(f, s[..|s|-1]) + [f(s[|s|-1])]
  }

  function FlatMap<T, U>(f: T -> seq<U>, s: seq<T>): seq<U> {
    if s == [] then [] else FlatMap(f, s[..|s|-1]) + f(s[|s|-1])
  }

  lemma MapOne<T, U>(f: T -> U, x: T)
    ensures Map(f, [x]) == [f(x)]
  {
  }

  lemma MapTwo<T, U>(f: T -> U, a: seq<T>, b: seq<T>)
    ensures Map(f, a + b) == Map(f, a) + Map(f, b)
  {
  }

  lemma InMap<T, U>(f: T -> U, s: seq<T>, y: U)
    ensures y in Map(f, s) <==> exists x :: x in s && f(x) == y
  {
    if y in Map(f, s) {
      var i :| 0 <= i < |s| && Map(f, s)[i] == y;
      assert s[i] in s;
    }
    if x :| x in s && f(x) == y {
      var i :| 0 <= i < |s| && s[i] == x;
      assert Map(f, s)[i] == y;
    }
  }

  lemma Prefix<T>(s: seq<T>, k: nat)
    requires k < |s|
    ensures |s[..k+1]| == k + 1 && s[..k+1][k] == s[k] && s[..k+1][..k] == s[..k]
  {
  }

  lemma SliceTwice<T>(s: seq<T>, m: nat, n: nat)
    requires n <= m <= |s|
    ensures s[..m][..n] == s[..n]
  {
  }

  lemma HeadAndTail<T>(s: seq<T>)
    requires s != []
    ensures s == [s[0]] + s[1..]
  {
  }

  lemma HeadAndRest<T>(s: seq<T>, n: nat)
    requires n <= |s|
    ensures s == s[..n] + s[n..]
  {
  }

  lemma Whole<T>(s: seq<T>)
    ensures s[..|s|] == s
  {
  }

  lemma AppendMapped<T, U>(before: seq<U>, f: T -> U, s: seq<T>, x: T)
    ensures before + Map(f, s + [x]) == (before + Map(f, s)) + [f(x)]
  {
    assert (s + [x])[..|s|] == s;
  }

  lemma FlatMapLast<T, U>(before: seq<U>, f: T -> seq<U>, s: seq<T>)
    requires s != []
    ensures before + FlatMap(f, s) == before + FlatMap(f, s[..|s|-1]) + f(s[|s|-1])
  {
    Regroup(before, FlatMap(f, s[..|s|-1]), f(s[|s|-1]));
  }

  lemma Regroup<T>(a: seq<T>, b: seq<T>, c: seq<T>)
    ensures a + (b + c) == a + b + c
  {
  }

  lemma {:induction false} InFlatMap<T, U>(f: T -> seq<U>, s: seq<T>, y: U)
    ensures y in FlatMap(f, s) <==> exists x :: x in s && y in f(x)
  {
    if s != [] {
      var front, last := s[..|s|-1], s[|s|-1];
      InFlatMap(f, front, y);
      assert forall x :: x in s <==> x in front || x == last;
    }
  }

  lemma {:induction false} FlatMapIsEmpty<T, U>(f: T -> seq<U>, s: seq<T>)
    ensures FlatMap(f, s) == [] <==> forall x :: x in s ==> f(x) == []
  {
    if s != [] {
      var front, last := s[..|s|-1], s[|s|-1];
      FlatMapIsEmpty(f, front);
      assert FlatMap(f, s) == [] <==> FlatMap(f, front) == [] && f(last) == [];
      assert forall x :: x in s <==> x in front || x == last;
    }
  }

  lemma {:induction false} SameFlatMap<T, U>(f: T -> seq<U>, g: T -> seq<U>, s: seq<T>)
    requires forall x :: x in s ==> f(x) == g(x)
    ensures FlatMap(f, s) == FlatMap(g, s)
  {
    if s != [] {
      assert s[|s|-1] in s;
      SameFlatMap(f, g, s[..|s|-1]);
    }
  }

  /** A set in insertion order: the first occurrence of every element. */
  function Distinct<T(==,!new)>(s: seq<T>): (d: seq<T>)
    ensures forall x :: x in d <==> x in s
    ensures forall i, j :: 0 <= i < j < |d| ==> d[i] != d[j]
  {
    if s == [] then []
    else
      var d := Distinct(s[..|s|-1]);
      assert forall x :: x in s <==> x in s[..|s|-1] || x == s[|s|-1];
      if s[|s|-1] in d then d else d + [s[|s|-1]]
  }
}
