/** The edit distance behind the "Did you mean ...?" hint of the command line
    (src/cli-meta/helpers.ts).

    The meaning of the distance is given by edit scripts: the price of the
    cheapest script that turns one string, a sequence of code units, into the other. The table-filling
    method is proved to return that price, and the price is proved to be a
    metric. */
module EditDistance {

  datatype Edit<T> =
    | Keep(c: T)
    | Insert(c: T)
    | Delete(c: T)
    | Substitute(from: T, to: T)

  /** The elements an edit takes from the source. */
  function Consumed<T>(e: Edit<T>): seq<T> {
    match e
    case Keep(c) => [c]
    case Insert(_) => []
    case Delete(c) => [c]
    case Substitute(c, _) => [c]
  }

  /** The elements an edit adds to the target. */
  function Produced<T>(e: Edit<T>): seq<T> {
    match e
    case Keep(c) => [c]
    case Insert(c) => [c]
    case Delete(_) => []
    case Substitute(_, c) => [c]
  }

  /** Keeping an element is free, every other edit costs one. */
  function Price<T>(e: Edit<T>): nat {
    if e.Keep? then 0 else 1
  }

  /** A list of edits, the last one outermost. */
  datatype Script<T> = Empty | Then(before: Script<T>, edit: Edit<T>)

  function Source<T>(s: Script<T>): seq<T> {
    match s
    case Empty => []
    case Then(t, e) => Source(t) + Consumed(e)
  }

  function Target<T>(s: Script<T>): seq<T> {
    match s
    case Empty => []
    case Then(t, e) => Target(t) + Produced(e)
  }

  function Cost<T>(s: Script<T>): nat {
    match s
    case Empty => 0
    case Then(t, e) => Cost(t) + Price(e)
  }

  ghost predicate Transforms<T>(s: Script<T>, a: seq<T>, b: seq<T>) {
    Source(s) == a && Target(s) == b
  }

  /** `d` is the cost of the cheapest script from `a` to `b`. */
  ghost predicate IsEditDistance<T(!new)>(a: seq<T>, b: seq<T>, d: nat) {
    && (exists s :: Transforms(s, a, b) && Cost(s) == d)
    && (forall s :: Transforms(s, a, b) ==> d <= Cost(s))
  }

  function Min(x: nat, y: nat): nat { if x <= y then x else y }

  function Max(x: nat, y: nat): nat { if x <= y then y else x }

  /** The recurrence the table follows: the distance of the prefixes `a[..i]` and `b[..j]`. */
  function Entry<T(==)>(a: seq<T>, b: seq<T>, i: nat, j: nat): nat
    requires i <= |a| && j <= |b|
    decreases i + j
  {
    if i == 0 then j
    else if j == 0 then i
    else
      Min(Min(Entry(a, b, i - 1, j) + 1, Entry(a, b, i, j - 1) + 1),
          Entry(a, b, i - 1, j - 1) + if a[i-1] == b[j-1] then 0 else 1)
  }

  function Distance<T(==)>(a: seq<T>, b: seq<T>): nat {
    Entry(a, b, |a|, |b|)
  }

  // --- The recurrence computes the cost of the cheapest script ---

  /** Some script reaches the value of the recurrence. */
  lemma {:induction false} Achievable<T>(a: seq<T>, b: seq<T>, i: nat, j: nat) returns (s: Script<T>)
    requires i <= |a| && j <= |b|
    ensures Transforms(s, a[..i], b[..j]) && Cost(s) == Entry(a, b, i, j)
    decreases i + j
  {
    assert i > 0 ==> a[..i] == a[..i-1] + [a[i-1]];
    assert j > 0 ==> b[..j] == b[..j-1] + [b[j-1]];
    if i == 0 && j == 0 {
      s := Empty;
    } else if j == 0 || (i > 0 && Entry(a, b, i, j) == Entry(a, b, i - 1, j) + 1) {
      s := Achievable(a, b, i - 1, j);
      s := Then(s, Delete(a[i-1]));
    } else if i == 0 || Entry(a, b, i, j) == Entry(a, b, i, j - 1) + 1 {
      s := Achievable(a, b, i, j - 1);
      s := Then(s, Insert(b[j-1]));
    } else {
      s := Achievable(a, b, i - 1, j - 1);
      s := Then(s, if a[i-1] == b[j-1] then Keep(a[i-1]) else Substitute(a[i-1], b[j-1]));
    }
  }

  /** An entry exceeds its neighbours above, to the left and across by one at most, and not the one
      across when the elements are the same. */
  lemma NeighboursBound<T>(a: seq<T>, b: seq<T>, i: nat, j: nat)
    requires i <= |a| && j <= |b|
    ensures i > 0 ==> Entry(a, b, i, j) <= Entry(a, b, i - 1, j) + 1
    ensures j > 0 ==> Entry(a, b, i, j) <= Entry(a, b, i, j - 1) + 1
    ensures i > 0 && j > 0 ==> Entry(a, b, i, j) <= Entry(a, b, i - 1, j - 1) + if a[i-1] == b[j-1] then 0 else 1
  {
    if i == 0 || j == 0 {
      assert Entry(a, b, i, j) == i + j;
    }
  }

  /** An entry exceeds none of its neighbours by more than the price of the edit between them. */
  lemma OneEditFurther<T>(a: seq<T>, b: seq<T>, i: nat, j: nat, e: Edit<T>)
    requires |Consumed(e)| <= i <= |a| && |Produced(e)| <= j <= |b|
    requires e.Keep? ==> a[i-1] == b[j-1]
    ensures Entry(a, b, i, j) <= Entry(a, b, i - |Consumed(e)|, j - |Produced(e)|) + Price(e)
  {
    NeighboursBound(a, b, i, j);
  }

  /** No script is cheaper than the recurrence. */
  lemma {:induction false} NoScriptIsCheaper<T>(s: Script<T>, a: seq<T>, b: seq<T>, i: nat, j: nat)
    requires i <= |a| && j <= |b| && Transforms(s, a[..i], b[..j])
    ensures Entry(a, b, i, j) <= Cost(s)
  {
    match s
    case Empty =>
    case Then(t, e) =>
      var i', j' := i - |Consumed(e)|, j - |Produced(e)|;
      assert Source(t) == a[..i][..i'] == a[..i'];
      assert Target(t) == b[..j][..j'] == b[..j'];
      assert e.Keep? ==> a[i'] == a[..i][i'] == b[..j][j'] == b[j'];
      NoScriptIsCheaper(t, a, b, i', j');
      OneEditFurther(a, b, i, j, e);
  }

  lemma CheapestScript<T>(a: seq<T>, b: seq<T>) returns (s: Script<T>)
    ensures Transforms(s, a, b) && Cost(s) == Distance(a, b)
  {
    s := Achievable(a, b, |a|, |b|);
    assert a[..|a|] == a && b[..|b|] == b;
  }

  lemma DistanceIsAtMost<T>(s: Script<T>)
    ensures Distance(Source(s), Target(s)) <= Cost(s)
  {
    var a, b := Source(s), Target(s);
    assert a[..|a|] == a && b[..|b|] == b;
    NoScriptIsCheaper(s, a, b, |a|, |b|);
  }

  lemma DistanceIsEditDistance<T(!new)>(a: seq<T>, b: seq<T>)
    ensures IsEditDistance(a, b, Distance(a, b))
  {
    var s := CheapestScript(a, b);
    forall t | Transforms(t, a, b) ensures Distance(a, b) <= Cost(t) {
      DistanceIsAtMost(t);
    }
  }

  lemma EditDistanceIsUnique<T(!new)>(a: seq<T>, b: seq<T>, d: nat)
    requires IsEditDistance(a, b, d)
    ensures d == Distance(a, b)
  {
    DistanceIsEditDistance(a, b);
  }

  // --- The distance is a metric ---

  lemma {:induction false} FreeScriptKeepsEverything<T>(s: Script<T>)
    requires Cost(s) == 0
    ensures Source(s) == Target(s)
  {
    match s
    case Empty =>
    case Then(t, _) => FreeScriptKeepsEverything(t);
  }

  lemma {:induction false} DistanceToSelf<T>(a: seq<T>, i: nat)
    requires i <= |a|
    ensures Entry(a, a, i, i) == 0
  {
    if i > 0 {
      DistanceToSelf(a, i - 1);
    }
  }

  lemma ZeroExactlyOnEqualStrings<T>(a: seq<T>, b: seq<T>)
    ensures Distance(a, b) == 0 <==> a == b
  {
    if a == b {
      DistanceToSelf(a, |a|);
    } else if Distance(a, b) == 0 {
      var s := CheapestScript(a, b);
      FreeScriptKeepsEverything(s);
    }
  }

  /** The inverse of a script. */
  function Undo<T>(s: Script<T>): Script<T> {
    match s
    case Empty => Empty
    case Then(t, Keep(c)) => Then(Undo(t), Keep(c))
    case Then(t, Insert(c)) => Then(Undo(t), Delete(c))
    case Then(t, Delete(c)) => Then(Undo(t), Insert(c))
    case Then(t, Substitute(c, d)) => Then(Undo(t), Substitute(d, c))
  }

  lemma {:induction false} UndoSwapsEnds<T>(s: Script<T>)
    ensures Transforms(Undo(s), Target(s), Source(s)) && Cost(Undo(s)) == Cost(s)
  {
    match s
    case Empty =>
    case Then(t, _) => UndoSwapsEnds(t);
  }

  lemma Symmetric<T>(a: seq<T>, b: seq<T>)
    ensures Distance(a, b) == Distance(b, a)
  {
    var s := CheapestScript(a, b);
    UndoSwapsEnds(s);
    DistanceIsAtMost(Undo(s));
    var t := CheapestScript(b, a);
    UndoSwapsEnds(t);
    DistanceIsAtMost(Undo(t));
  }

  /** One edit doing the work of `e` and then `f`, where `f` consumes what `e` produced.
      (An insertion undone by a deletion needs no edit at all.) */
  function Fuse<T>(e: Edit<T>, f: Edit<T>): (g: Edit<T>)
    requires Produced(e) == Consumed(f) != []
    requires !(e.Insert? && f.Delete?)
    ensures Consumed(g) == Consumed(e) && Produced(g) == Produced(f) && Price(g) <= Price(e) + Price(f)
  {
    if e.Insert? then Insert(Produced(f)[0])
    else if f.Delete? then Delete(Consumed(e)[0])
    else if e.Keep? && f.Keep? then e
    else Substitute(Consumed(e)[0], Produced(f)[0])
  }

  /** Runs `s` and then `t` as one script, never dearer than both together. */
  lemma {:induction false} Compose<T>(s: Script<T>, t: Script<T>) returns (r: Script<T>)
    requires Target(s) == Source(t)
    ensures Transforms(r, Source(s), Target(t)) && Cost(r) <= Cost(s) + Cost(t)
    decreases s, t
  {
    if t.Then? && t.edit.Insert? {
      r := Compose(s, t.before);
      r := Then(r, t.edit);
    } else if s.Then? && s.edit.Delete? {
      r := Compose(s.before, t);
      r := Then(r, s.edit);
    } else if s.Empty? || t.Empty? {
      r := Empty;
    } else {
      var m := |Target(s)| - 1;
      assert Target(s.before) == Target(s)[..m] == Source(t)[..m] == Source(t.before);
      assert Produced(s.edit) == Target(s)[m..] == Source(t)[m..] == Consumed(t.edit);
      r := Compose(s.before, t.before);
      if !(s.edit.Insert? && t.edit.Delete?) {
        r := Then(r, Fuse(s.edit, t.edit));
      }
    }
  }

  lemma TriangleInequality<T>(a: seq<T>, b: seq<T>, c: seq<T>)
    ensures Distance(a, c) <= Distance(a, b) + Distance(b, c)
  {
    var s := CheapestScript(a, b);
    var t := CheapestScript(b, c);
    var r := Compose(s, t);
    DistanceIsAtMost(r);
  }

  lemma {:induction false} CostCoversLengthDifference<T>(s: Script<T>)
    ensures |Source(s)| <= |Target(s)| + Cost(s) && |Target(s)| <= |Source(s)| + Cost(s)
  {
    match s
    case Empty =>
    case Then(t, _) => CostCoversLengthDifference(t);
  }

  lemma {:induction false} EntryIsAtMostLonger<T>(a: seq<T>, b: seq<T>, i: nat, j: nat)
    requires i <= |a| && j <= |b|
    ensures Entry(a, b, i, j) <= Max(i, j)
  {
    if i > 0 && j > 0 {
      EntryIsAtMostLonger(a, b, i - 1, j - 1);
      OneEditFurther(a, b, i, j, Substitute(a[i-1], b[j-1]));
    }
  }

  /** Never less than the difference in length, never more than the longer length. */
  lemma LengthBounds<T>(a: seq<T>, b: seq<T>)
    ensures Max(|a|, |b|) - Min(|a|, |b|) <= Distance(a, b) <= Max(|a|, |b|)
  {
    var s := CheapestScript(a, b);
    CostCoversLengthDifference(s);
    EntryIsAtMostLonger(a, b, |a|, |b|);
  }

  // --- The table ---

  /** The table with its first row and column filled. */
  method NewTable(m: nat, n: nat) returns (dp: array2<nat>)
    ensures fresh(dp) && dp.Length0 == m + 1 && dp.Length1 == n + 1
    ensures forall k :: 0 <= k <= m ==> dp[k, 0] == k
    ensures forall l :: 0 <= l <= n ==> dp[0, l] == l
  {
    dp := new nat[m + 1, n + 1]((i, j) => 0);
    for i := 0 to m + 1
      invariant forall k :: 0 <= k < i ==> dp[k, 0] == k
    {
      dp[i, 0] := i;
    }
    for j := 0 to n + 1
      invariant forall k :: 0 <= k <= m ==> dp[k, 0] == k
      invariant forall l :: 0 <= l < j ==> dp[0, l] == l
    {
      dp[0, j] := j;
    }
  }

  method Levenshtein<T(==,!new)>(a: seq<T>, b: seq<T>) returns (d: nat)
    ensures IsEditDistance(a, b, d)
    ensures d == Distance(a, b)
  {
    var dp := NewTable(|a|, |b|);
    for i := 1 to |a| + 1
      invariant forall k, l {:trigger dp[k, l]} :: 0 <= k <= |a| && 0 <= l <= |b| && (k < i || l == 0) ==>
        dp[k, l] == Entry(a, b, k, l)
    {
      for j := 1 to |b| + 1
        invariant forall k, l {:trigger dp[k, l]} :: 0 <= k <= |a| && 0 <= l <= |b| && (k < i || l == 0 || (k == i && l < j)) ==>
          dp[k, l] == Entry(a, b, k, l)
      {
        var cost := if a[i-1] == b[j-1] then 0 else 1;
        var least := Min(Min(dp[i-1, j] + 1, dp[i, j-1] + 1), dp[i-1, j-1] + cost);
        assert least == Entry(a, b, i, j);
        dp[i, j] := least;
      }
    }
    d := dp[|a|, |b|];
    DistanceIsEditDistance(a, b);
  }
}
