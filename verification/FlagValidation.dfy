/** The unknown-flag check of the command line and its "Did you mean ...?"
    hint (src/cli-meta/helpers.ts, src/cli-meta/_shared.ts). */
module FlagValidation {
  import opened Lists
  import opened Options
  import opened Utf16
  import ED = EditDistance

  datatype CommandSpec = CommandSpec(key: string, allowedFlags: seq<string>, hasExample: bool)

  /** One line of the report: the flag, the command, and the hint if one is shown. */
  datatype FlagError = UnknownFlag(flag: string, commandKey: string, hint: Option<string>)

  const GLOBAL_FLAGS := ["--help", "--format", "--json", "--actor", "--actor-via"]
  const EXAMPLE_FLAG := "--example"

  /** A suggestion further away than this is not offered. */
  const MAX_HINT_DISTANCE := 3

  function FlagsForSpec(spec: CommandSpec): seq<string> {
    if spec.hasExample then GLOBAL_FLAGS + [EXAMPLE_FLAG] else GLOBAL_FLAGS
  }

  function AllowedFlags(spec: CommandSpec): seq<string> {
    Distinct(spec.allowedFlags + FlagsForSpec(spec))
  }

  /** The edit distance, by code units. */
  function Apart(a: string, b: string): nat {
    ED.Distance(Units(a), Units(b))
  }

  /** `best` is the first candidate at the least distance from `input`, and that
      distance is at most three; there is no such candidate when `best` is None. */
  ghost predicate IsNearest(input: string, candidates: seq<string>, best: Option<string>) {
    match best
    case None =>
      forall c :: c in candidates ==> Apart(input, c) > MAX_HINT_DISTANCE
    case Some(v) =>
      && Apart(input, v) <= MAX_HINT_DISTANCE
      && exists k :: 0 <= k < |candidates| && FirstLeast(input, candidates, k) && candidates[k] == v
  }

  ghost predicate FirstLeast(input: string, candidates: seq<string>, k: nat)
    requires k < |candidates|
  {
    && (forall i :: 0 <= i < |candidates| ==> Apart(input, candidates[k]) <= Apart(input, candidates[i]))
    && (forall i :: 0 <= i < k ==> Apart(input, candidates[k]) < Apart(input, candidates[i]))
  }

  ghost predicate IsNear(input: string, candidates: seq<string>) {
    exists c :: c in candidates && Apart(input, c) <= 3
  }

  method SuggestFlag(input: string, candidates: seq<string>) returns (best: Option<string>)
    ensures IsNearest(input, candidates, best)
  {
    best := None;
    var bestScore := 0;
    for i := 0 to |candidates|
      invariant IsNearest(input, candidates[..i], best)
      invariant best.Some? ==> bestScore == Apart(input, best.value)
    {
      ghost var next := Nearer(input, best, candidates[i]);
      OneMoreCandidate(input, candidates, i, best);
      assert IsNearest(input, candidates[..i+1], next);
      var score := ED.Levenshtein(Units(input), Units(candidates[i]));
      if score > MAX_HINT_DISTANCE {
        continue;
      }
      if best.None? || score < bestScore {
        best, bestScore := Some(candidates[i]), score;
      }
    }
    assert candidates[..|candidates|] == candidates;
  }

  /** The nearest so far, or the next candidate when it is near and nearer. */
  function Nearer(input: string, best: Option<string>, next: string): Option<string> {
    if Apart(input, next) <= MAX_HINT_DISTANCE && (best.None? || Apart(input, next) < Apart(input, best.value)) then Some(next) else best
  }

  lemma OneMoreCandidate(input: string, candidates: seq<string>, i: nat, best: Option<string>)
    requires i < |candidates| && IsNearest(input, candidates[..i], best)
    ensures IsNearest(input, candidates[..i+1], Nearer(input, best, candidates[i]))
  {
    NearestSoFar(input, candidates[..i], best, candidates[i]);
    assert candidates[..i+1] == candidates[..i] + [candidates[i]];
  }

  lemma NearestSoFar(input: string, candidates: seq<string>, best: Option<string>, next: string)
    requires IsNearest(input, candidates, best)
    ensures IsNearest(input, candidates + [next], Nearer(input, best, next))
  {
    var more, n := candidates + [next], |candidates|;
    assert forall i :: 0 <= i < n ==> more[i] == candidates[i] && candidates[i] in candidates;
    if Nearer(input, best, next) != best {
      NextIsNearest(input, candidates, best, next);
    } else if best.Some? {
      var k :| 0 <= k < n && FirstLeast(input, candidates, k) && candidates[k] == best.value;
      assert FirstLeast(input, more, k);
    }
  }

  lemma NextIsNearest(input: string, candidates: seq<string>, best: Option<string>, next: string)
    requires IsNearest(input, candidates, best) && Apart(input, next) <= MAX_HINT_DISTANCE
    requires best.None? || Apart(input, next) < Apart(input, best.value)
    ensures IsNearest(input, candidates + [next], Some(next))
  {
    var more, n := candidates + [next], |candidates|;
    forall i | 0 <= i < n ensures Apart(input, next) < Apart(input, more[i]) {
      assert more[i] == candidates[i] && candidates[i] in candidates;
    }
    assert FirstLeast(input, more, n) && more[n] == next;
  }

  /** The flags that are not allowed, in the order they were given. */
  function Unknown(flags: seq<string>, allowed: seq<string>): seq<string> {
    if flags == [] then []
    else
      var u := Unknown(flags[..|flags|-1], allowed);
      if flags[|flags|-1] in allowed then u else u + [flags[|flags|-1]]
  }

  /** The line reported for an unknown flag: a hint is shown exactly when some
      allowed flag is near and the first nearest one is not the empty string. */
  ghost predicate ReportsUnknown(e: FlagError, flag: string, spec: CommandSpec) {
    && e.flag == flag
    && e.commandKey == spec.key
    && match e.hint
       case Some(v) => v != "" && IsNearest(flag, AllowedFlags(spec), Some(v))
       case None => IsNearest(flag, AllowedFlags(spec), None) || IsNearest(flag, AllowedFlags(spec), Some(""))
  }

  /** The report consists of one line per unknown flag, in order. */
  ghost predicate ReportsAll(errors: seq<FlagError>, unknown: seq<string>, spec: CommandSpec) {
    && |errors| == |unknown|
    && forall i :: 0 <= i < |errors| ==> ReportsUnknown(errors[i], unknown[i], spec)
  }

  /** An absent or empty command has the empty key; an absent or empty subcommand is left off. */
  function CommandKey(cmd: Option<string>, sub: Option<string>): string {
    if cmd.None? || cmd.value == "" then ""
    else if sub.None? || sub.value == "" then cmd.value
    else cmd.value + " " + sub.value
  }

  lemma OneMoreFlag(flags: seq<string>, i: nat, allowed: seq<string>)
    requires i < |flags|
    ensures Unknown(flags[..i+1], allowed) == Unknown(flags[..i], allowed) + if flags[i] in allowed then [] else [flags[i]]
  {
    assert flags[..i+1][..i] == flags[..i];
  }

  method ReportFlag(flag: string, spec: CommandSpec, allowed: seq<string>) returns (error: FlagError)
    requires allowed == AllowedFlags(spec)
    ensures ReportsUnknown(error, flag, spec)
  {
    var suggestion := SuggestFlag(flag, allowed);
    error := UnknownFlag(flag, spec.key, if suggestion == Some("") then None else suggestion);
  }

  /** Exactly the unknown flags are reported, once per occurrence, in order, each with its hint. */
  method ValidateCommandFlags(registry: map<string, CommandSpec>, cmd: Option<string>, sub: Option<string>, flags: seq<string>)
      returns (errors: seq<FlagError>)
    ensures CommandKey(cmd, sub) !in registry ==> errors == []
    ensures CommandKey(cmd, sub) in registry ==>
      var spec := registry[CommandKey(cmd, sub)];
      ReportsAll(errors, Unknown(flags, AllowedFlags(spec)), spec)
  {
    errors := [];
    var key := CommandKey(cmd, sub);
    if key !in registry {
      return;
    }
    var spec := registry[key];
    var allowed := AllowedFlags(spec);
    for i := 0 to |flags|
      invariant ReportsAll(errors, Unknown(flags[..i], allowed), spec)
    {
      OneMoreFlag(flags, i, allowed);
      if flags[i] in allowed {
        continue;
      }
      var error := ReportFlag(flags[i], spec, allowed);
      errors := errors + [error];
    }
    assert flags[..|flags|] == flags;
  }

  /** Nothing is reported exactly when every flag is allowed. */
  lemma {:induction false} NothingUnknown(flags: seq<string>, allowed: seq<string>)
    ensures Unknown(flags, allowed) == [] <==> forall f :: f in flags ==> f in allowed
  {
    if flags != [] {
      var front, last := flags[..|flags|-1], flags[|flags|-1];
      NothingUnknown(front, allowed);
      assert forall f :: f in flags <==> f in front || f == last;
    }
  }

  /** Every unknown flag, and only an unknown flag, is reported. */
  lemma {:induction false} UnknownAreTheRejected(flags: seq<string>, allowed: seq<string>, f: string)
    ensures f in Unknown(flags, allowed) <==> f in flags && f !in allowed
  {
    if flags != [] {
      var front, last := flags[..|flags|-1], flags[|flags|-1];
      UnknownAreTheRejected(front, allowed, f);
      assert f in flags <==> f in front || f == last;
    }
  }

  /** They are reported in the order in which they were given, once for every time. */
  lemma {:induction false} UnknownInOrder(flags: seq<string>, allowed: seq<string>) returns (ks: seq<int>)
    ensures var u := Unknown(flags, allowed); |ks| == |u| && forall i :: 0 <= i < |u| ==> 0 <= ks[i] < |flags| && flags[ks[i]] == u[i]
    ensures forall i, j :: 0 <= i < j < |ks| ==> ks[i] < ks[j]
    ensures forall k :: 0 <= k < |flags| && flags[k] !in allowed ==> k in ks
  {
    ks := [];
    if flags != [] {
      var n := |flags| - 1;
      ks := UnknownInOrder(flags[..n], allowed);
      assert forall k :: 0 <= k < n ==> flags[..n][k] == flags[k];
      if flags[n] !in allowed {
        ks := ks + [n];
        assert n in ks;
      }
    }
  }

  /** The first nearest flag is unique, so the hint of a line is determined by the flag and the command. */
  lemma NearestIsUnique(input: string, candidates: seq<string>, b: Option<string>, c: Option<string>)
    requires IsNearest(input, candidates, b) && IsNearest(input, candidates, c)
    ensures b == c
  {
    if b.Some? && c.Some? {
      var i :| 0 <= i < |candidates| && FirstLeast(input, candidates, i) && candidates[i] == b.value;
      var j :| 0 <= j < |candidates| && FirstLeast(input, candidates, j) && candidates[j] == c.value;
      assert Apart(input, candidates[i]) == Apart(input, candidates[j]);
      assert i == j;
    }
  }

  /** A shown hint is an allowed flag between one and three edits away, and no allowed flag is
      nearer. No hint is shown although some allowed flag is that near exactly when the first
      nearest one is the empty string; otherwise no hint means that all are further away. */
  lemma HintIsNearbyAndAllowed(e: FlagError, flag: string, spec: CommandSpec)
    requires flag !in AllowedFlags(spec) && ReportsUnknown(e, flag, spec)
    ensures e.hint.Some? ==>
      && e.hint.value in AllowedFlags(spec)
      && 1 <= Apart(flag, e.hint.value) <= 3
      && (forall c :: c in AllowedFlags(spec) ==> Apart(flag, e.hint.value) <= Apart(flag, c))
    ensures e.hint.None? && IsNear(flag, AllowedFlags(spec)) <==> IsNearest(flag, AllowedFlags(spec), Some(""))
    ensures "" !in AllowedFlags(spec) ==> (e.hint.None? <==> !IsNear(flag, AllowedFlags(spec)))
  {
    if e.hint.Some? {
      UnitsAreUnique(flag, e.hint.value);
      ED.ZeroExactlyOnEqualStrings(Units(flag), Units(e.hint.value));
    }
    if IsNearest(flag, AllowedFlags(spec), Some("")) && e.hint.Some? {
      NearestIsUnique(flag, AllowedFlags(spec), Some(""), e.hint);
    }
  }

  /** Every command allows the global flags, and those with an example its flag; nothing else. */
  lemma AllowedExactlyWhen(spec: CommandSpec, flag: string)
    ensures flag in AllowedFlags(spec) <==>
      || flag in spec.allowedFlags
      || flag == "--help" || flag == "--format" || flag == "--json" || flag == "--actor" || flag == "--actor-via"
      || (spec.hasExample && flag == "--example")
  {
  }

  /** A command is looked up by its word, or by its two words with a space between them. */
  lemma KeyOfWords(cmd: string, sub: string)
    requires cmd != "" && sub != ""
    ensures CommandKey(Some(cmd), Some(sub)) == cmd + " " + sub
    ensures CommandKey(Some(cmd), None) == CommandKey(Some(cmd), Some("")) == cmd
    ensures CommandKey(None, Some(sub)) == CommandKey(Some(""), Some(sub)) == ""
  {
  }
}
