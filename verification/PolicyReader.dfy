/** The reader of the actor allowlist in config/policy.yaml (src/cli-actor.ts): a line-by-line
    state machine, what it lists, and a printer that it undoes. */
module PolicyReader {
  import opened Lists
  import opened Options
  import opened Strings

  // --- Values ---

  predicate IsQuote(c: char) {
    c == '\'' || c == '\"'
  }

  function Indent(s: string): nat {
    |s| - |TrimStart(s)|
  }

  /** Drops one quote at the start and one at the end. */
  function Unquote(s: string): string {
    var t := if s != "" && IsQuote(s[0]) then s[1..] else s;
    if t != "" && IsQuote(t[|t|-1]) then t[..|t|-1] else t
  }

  // --- Lines ---

  /** What the reader asks about a line: is it blank or a comment, is it the key that opens the
      list, does it start in column 0, which section does it name, which list item does it hold? */
  datatype Line = Line(skipped: bool, opens: bool, topLevel: bool, names: Option<string>, item: Option<string>)

  /** A value without the space around it and its quotes, if it is on one line. */
  function ValueIn(rest: string): Option<string> {
    var x := Trim(rest);
    if x == "" || exists i :: 0 <= i < |x| && IsTerminator(x[i]) then None else Some(Unquote(x))
  }

  /** The value after the dash of a list item. */
  function Item(raw: string): Option<string> {
    var r := TrimStart(raw);
    if r == "" || r[0] != '-' then None else ValueIn(r[1..])
  }

  /** A key two columns in names the section of the entries below it. */
  function SectionName(raw: string): Option<string> {
    var t := Trim(raw);
    if t != "" && Indent(raw) == 2 && t[|t|-1] == ':' then Some(t[..|t|-1]) else None
  }

  function Scan(raw: string): Line {
    var t := Trim(raw);
    Line(t == "" || t[0] == '#', t == "actor_allowlist:", Indent(raw) == 0, SectionName(raw), Item(raw))
  }

  function Prefixed(prefix: string, value: string): string {
    if StartsWith(value, prefix) then value else prefix + value
  }

  /** The actor that a value names in a section. */
  function Actor(section: Option<string>, value: string): string {
    if section == Some("users") then Prefixed("user:", value)
    else if section == Some("agents") then Prefixed("agent:", value)
    else if section == Some("systems") then Prefixed("system:", value)
    else value
  }

  // --- The state machine ---

  datatype State = Outside | Within(section: Option<string>) | Past

  function Step(state: State, line: Line): State {
    if state.Past? || line.skipped then state
    else if state.Outside? then if line.opens then Within(None) else Outside
    else if line.topLevel then Past
    else if line.names.Some? then Within(line.names)
    else state
  }

  function StateAfter(lines: seq<Line>): State {
    if lines == [] then Outside else Step(StateAfter(lines[..|lines|-1]), lines[|lines|-1])
  }

  /** The value of an entry of the list. */
  function Entry(line: Line): Option<string> {
    if line.skipped || line.topLevel || line.names.Some? then None else line.item
  }

  /** Who is listed where, by section and value. */
  datatype Mention = Mention(section: Option<string>, value: string)

  function Gain(state: State, line: Line): set<Mention> {
    if state.Within? && Entry(line).Some? then {Mention(state.section, Entry(line).value)} else {}
  }

  /** The entries that the lines list. */
  function Mentions(lines: seq<Line>): set<Mention> {
    if lines == [] then {}
    else Mentions(lines[..|lines|-1]) + Gain(StateAfter(lines[..|lines|-1]), lines[|lines|-1])
  }

  function Actors(mentions: set<Mention>): set<string> {
    set m | m in mentions :: Actor(m.section, m.value)
  }

  /** The allowlist that the lines load to. */
  function Loaded(raw: seq<string>): set<string> {
    Actors(Mentions(Map(Scan, raw)))
  }

  lemma {:induction false} PastStaysPast(lines: seq<Line>, k: nat)
    requires k <= |lines| && StateAfter(lines[..k]).Past?
    ensures StateAfter(lines).Past? && Mentions(lines) == Mentions(lines[..k])
  {
    if k < |lines| {
      var front := lines[..|lines|-1];
      assert front[..k] == lines[..k];
      PastStaysPast(front, k);
    } else {
      Whole(lines);
    }
  }

  lemma OneMoreLine(lines: seq<Line>, k: nat)
    requires k < |lines|
    ensures StateAfter(lines[..k+1]) == Step(StateAfter(lines[..k]), lines[k])
    ensures Mentions(lines[..k+1]) == Mentions(lines[..k]) + Gain(StateAfter(lines[..k]), lines[k])
  {
    Prefix(lines, k);
  }

  lemma ReadToTheEnd(lines: seq<Line>, k: nat)
    requires k < |lines| && StateAfter(lines[..k]).Within? && !lines[k].skipped && lines[k].topLevel
    ensures Mentions(lines) == Mentions(lines[..k])
  {
    OneMoreLine(lines, k);
    PastStaysPast(lines, k + 1);
  }

  /** The loop over the lines, for any way of looking at a line. */
  method ReadLines(scan: string -> Line, raw: seq<string>) returns (mentions: set<Mention>)
    ensures mentions == Mentions(Map(scan, raw))
  {
    mentions := {};
    ghost var lines := Map(scan, raw);
    var inActorAllowlist := false;
    var section: Option<string> := None;
    for k := 0 to |raw|
      invariant !inActorAllowlist ==> section == None
      invariant mentions == Mentions(lines[..k])
      invariant StateAfter(lines[..k]) == if inActorAllowlist then Within(section) else Outside
    {
      OneMoreLine(lines, k);
      var line := scan(raw[k]);
      if line.skipped {
        continue;
      }
      if !inActorAllowlist {
        if line.opens {
          inActorAllowlist := true;
        }
        continue;
      }
      if line.topLevel {
        ReadToTheEnd(lines, k);
        return;
      }
      if line.names.Some? {
        section := line.names;
        continue;
      }
      if line.item.None? {
        continue;
      }
      mentions := mentions + {Mention(section, line.item.value)};
    }
    Whole(lines);
  }

  method LoadActorAllowlist(raw: seq<string>) returns (allowlist: set<string>)
    ensures allowlist == Loaded(raw)
  {
    var mentions := ReadLines(Scan, raw);
    allowlist := Actors(mentions);
  }

  // --- What is listed ---

  ghost predicate IsFirstOpener(lines: seq<Line>, h: nat) {
    && h < |lines| && lines[h].opens && !lines[h].skipped
    && forall k :: 0 <= k < h ==> lines[k].skipped || !lines[k].opens
  }

  /** No line between `h` and `end` closes the list: only skipped lines may start in column 0. */
  ghost predicate StaysOpen(lines: seq<Line>, h: nat, end: nat)
    requires end <= |lines|
  {
    forall k :: h < k < end ==> lines[k].skipped || !lines[k].topLevel
  }

  predicate NamesSection(line: Line) {
    !line.skipped && line.names.Some?
  }

  ghost predicate NamesNone(lines: seq<Line>, from: nat, end: nat)
    requires end <= |lines|
  {
    forall k :: from < k < end ==> !NamesSection(lines[k])
  }

  /** `section` is named by the last line between `h` and `end` that names one, if any does. */
  ghost predicate IsSectionAt(lines: seq<Line>, h: nat, end: nat, section: Option<string>)
    requires end <= |lines|
  {
    match section
    case None => NamesNone(lines, h, end)
    case Some(_) => exists j: nat :: h < j < end && NamesSection(lines[j]) && lines[j].names == section && NamesNone(lines, j, end)
  }

  /** Line `i` holds the value, below the first opener `h` and before the next key in column 0. */
  ghost predicate IsListedAt(lines: seq<Line>, h: nat, i: nat, m: Mention) {
    && h < i < |lines| && IsFirstOpener(lines, h) && StaysOpen(lines, h, i + 1)
    && IsSectionAt(lines, h, i, m.section)
    && Entry(lines[i]) == Some(m.value)
  }

  ghost predicate IsListedOn(lines: seq<Line>, i: nat, m: Mention) {
    exists h: nat :: IsListedAt(lines, h, i, m)
  }

  ghost predicate IsListed(lines: seq<Line>, m: Mention) {
    exists i: nat :: IsListedOn(lines, i, m)
  }

  // --- The state machine reads what is listed ---

  /** The opener that the state stems from, if there is one. */
  ghost predicate Explains(lines: seq<Line>, h: nat, state: State) {
    match state
    case Outside => forall k :: 0 <= k < |lines| ==> lines[k].skipped || !lines[k].opens
    case Within(section) => IsFirstOpener(lines, h) && StaysOpen(lines, h, |lines|) && IsSectionAt(lines, h, |lines|, section)
    case Past => IsFirstOpener(lines, h) && !StaysOpen(lines, h, |lines|)
  }

  lemma SectionCarriesOn(lines: seq<Line>, h: nat, section: Option<string>)
    requires lines != [] && h < |lines| - 1 && IsSectionAt(lines[..|lines|-1], h, |lines| - 1, section)
    ensures var line := lines[|lines|-1];
      IsSectionAt(lines, h, |lines|, if NamesSection(line) then line.names else section)
  {
    var n := |lines| - 1;
    if NamesSection(lines[n]) {
      assert NamesNone(lines, n, n + 1);
    } else if section.Some? {
      var j: nat :| h < j < n && NamesSection(lines[..n][j]) && lines[..n][j].names == section && NamesNone(lines[..n], j, n);
      assert NamesNone(lines, j, n + 1);
    }
  }

  lemma {:induction false} StateIsExplained(lines: seq<Line>) returns (h: nat)
    ensures Explains(lines, h, StateAfter(lines))
  {
    if lines == [] {
      h := 0;
      return;
    }
    var n := |lines| - 1;
    var front, line := lines[..n], lines[n];
    h := StateIsExplained(front);
    if StateAfter(front).Outside? {
      if line.opens && !line.skipped {
        h := n;
      }
    } else if StateAfter(front).Within? {
      SectionCarriesOn(lines, h, StateAfter(front).section);
    } else {
      assert !StaysOpen(front, h, n);
    }
  }

  lemma SectionIsUnique(lines: seq<Line>, h: nat, end: nat, s: Option<string>, r: Option<string>)
    requires end <= |lines| && IsSectionAt(lines, h, end, s) && IsSectionAt(lines, h, end, r)
    ensures s == r
  {
  }

  /** Whether an entry is listed before line `n` is decided by the lines before it. */
  lemma ListedInFront(lines: seq<Line>, n: nat, h: nat, i: nat, m: Mention)
    requires i < n <= |lines|
    ensures IsListedAt(lines[..n], h, i, m) <==> IsListedAt(lines, h, i, m)
  {
    var front := lines[..n];
    assert IsSectionAt(front, h, i, m.section) <==> IsSectionAt(lines, h, i, m.section) by {
      forall j: nat ensures NamesNone(front, j, i) <==> NamesNone(lines, j, i) {
      }
    }
  }

  lemma ListedLast(lines: seq<Line>, m: Mention)
    requires lines != []
    ensures m in Gain(StateAfter(lines[..|lines|-1]), lines[|lines|-1]) <==> IsListedOn(lines, |lines| - 1, m)
  {
    var n := |lines| - 1;
    var front, line := lines[..n], lines[n];
    var state := StateAfter(front);
    var g := StateIsExplained(front);
    assert forall h: nat :: IsFirstOpener(front, h) && IsFirstOpener(front, g) ==> h == g;
    if m in Gain(state, line) {
      assert IsSectionAt(lines, g, n, m.section) by {
        SectionInFront(lines, n, g, m.section);
      }
      assert IsListedAt(lines, g, n, m);
    }
    if h: nat :| IsListedAt(lines, h, n, m) {
      assert front[h] == lines[h];
      SectionInFront(lines, n, h, m.section);
      assert IsFirstOpener(front, h);
      if state.Within? {
        SectionIsUnique(front, h, n, m.section, state.section);
      }
    }
  }

  lemma SectionInFront(lines: seq<Line>, n: nat, h: nat, section: Option<string>)
    requires n <= |lines|
    ensures IsSectionAt(lines[..n], h, n, section) <==> IsSectionAt(lines, h, n, section)
  {
    var front := lines[..n];
    forall j: nat ensures NamesNone(front, j, n) <==> NamesNone(lines, j, n) {
    }
  }

  lemma {:induction false} MentionsAreListed(lines: seq<Line>, m: Mention)
    ensures m in Mentions(lines) <==> IsListed(lines, m)
  {
    if lines != [] {
      var n := |lines| - 1;
      MentionsAreListed(lines[..n], m);
      ListedLast(lines, m);
      if IsListed(lines[..n], m) {
        var i: nat :| IsListedOn(lines[..n], i, m);
        var h: nat :| IsListedAt(lines[..n], h, i, m);
        ListedInFront(lines, n, h, i, m);
        assert IsListedOn(lines, i, m);
      }
      if IsListed(lines, m) && !IsListed(lines[..n], m) {
        var i: nat :| IsListedOn(lines, i, m);
        var h: nat :| IsListedAt(lines, h, i, m);
        if i < n {
          ListedInFront(lines, n, h, i, m);
          assert IsListedOn(lines[..n], i, m);
        }
      }
    }
  }

  /** The allowlist holds exactly the actors of the entries below the first `actor_allowlist:`
      line and before the next key in column 0, each read in the section named last. */
  lemma AllowlistIsWhatIsListed(raw: seq<string>, actor: string)
    ensures actor in Loaded(raw) <==> exists m :: IsListed(Map(Scan, raw), m) && actor == Actor(m.section, m.value)
  {
    forall m ensures m in Mentions(Map(Scan, raw)) <==> IsListed(Map(Scan, raw), m) {
      MentionsAreListed(Map(Scan, raw), m);
    }
  }
}
