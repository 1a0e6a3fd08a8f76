/** A printer for config/policy.yaml that the allowlist reader undoes: sections with values, among
    comments, blank lines and other top-level keys, under either line ending. */
module PolicyPrinter {
  import opened Lists
  import opened Options
  import opened PolicyReader
  import opened Strings

  // --- Splitting a text into lines ---

  function WithoutReturn(line: string): string {
    if line != "" && line[|line|-1] == '\r' then line[..|line|-1] else line
  }

  /** `split(/\r?\n/)` */
  function SplitLines(text: string): (lines: seq<string>)
    ensures lines != []
    decreases |text|
  {
    var head := Before(text, '\n');
    if |head| == |text| then [text] else [WithoutReturn(head)] + SplitLines(text[|head| + 1..])
  }

  function LineEnd(crlf: bool): string {
    if crlf then "\r\n" else "\n"
  }

  /** The lines with a line ending of either kind between any two. */
  function JoinLines(lines: seq<string>, crlf: seq<bool>): string
    requires |lines| == |crlf| + 1
  {
    if crlf == [] then lines[0] else lines[0] + LineEnd(crlf[0]) + JoinLines(lines[1..], crlf[1..])
  }

  /** The lines can be told apart from their endings. */
  ghost predicate CanBeJoined(lines: seq<string>, crlf: seq<bool>) {
    && |lines| == |crlf| + 1
    && (forall i :: 0 <= i < |lines| ==> '\n' !in lines[i])
    && (forall i :: 0 <= i < |crlf| ==> crlf[i] || WithoutReturn(lines[i]) == lines[i])
  }

  lemma SplitFirst(head: string, rest: string)
    requires '\n' !in head
    ensures SplitLines(head + "\n" + rest) == [WithoutReturn(head)] + SplitLines(rest)
  {
    var text := head + "\n" + rest;
    BeforeFirst(head, '\n', rest);
    assert |head| < |text| && text[|head| + 1..] == rest;
  }

  lemma LineAndEnd(line: string, crlf: bool, rest: string) returns (head: string)
    requires '\n' !in line && (crlf || WithoutReturn(line) == line)
    ensures '\n' !in head && WithoutReturn(head) == line
    ensures line + LineEnd(crlf) + rest == head + "\n" + rest
  {
    head := if crlf then line + "\r" else line;
    assert crlf ==> line + "\r\n" == head + "\n";
  }

  lemma {:induction false} SplitUndoesJoin(lines: seq<string>, crlf: seq<bool>)
    requires CanBeJoined(lines, crlf)
    ensures SplitLines(JoinLines(lines, crlf)) == lines
  {
    if crlf == [] {
      BeforeNone(lines[0], '\n');
    } else {
      var rest := JoinLines(lines[1..], crlf[1..]);
      SplitUndoesJoin(lines[1..], crlf[1..]);
      var head := LineAndEnd(lines[0], crlf[0], rest);
      SplitFirst(head, rest);
      assert lines == [lines[0]] + lines[1..];
    }
  }

  /** Every text is a join of the lines it splits into. */
  lemma {:induction false} JoinUndoesSplit(text: string) returns (crlf: seq<bool>)
    ensures CanBeJoined(SplitLines(text), crlf) && JoinLines(SplitLines(text), crlf) == text
    decreases |text|
  {
    if |Before(text, '\n')| == |text| {
      crlf := [];
    } else {
      var head := Before(text, '\n');
      var rest := text[|head| + 1..];
      CutFirst(text, '\n');
      var more := JoinUndoesSplit(rest);
      var ends := WithoutReturn(head) != head;
      crlf := [ends] + more;
      SplitFirst(head, rest);
      JoinFirst(head, ends, SplitLines(rest), more);
    }
  }

  lemma JoinFirst(head: string, ends: bool, lines: seq<string>, crlf: seq<bool>)
    requires '\n' !in head && (ends <==> WithoutReturn(head) != head) && CanBeJoined(lines, crlf)
    ensures CanBeJoined([WithoutReturn(head)] + lines, [ends] + crlf)
    ensures JoinLines([WithoutReturn(head)] + lines, [ends] + crlf) == head + "\n" + JoinLines(lines, crlf)
  {
    var ls, es := [WithoutReturn(head)] + lines, [ends] + crlf;
    assert ls[1..] == lines && es[1..] == crlf;
    if ends {
      assert head == ls[0] + "\r";
      assert ls[0] + "\r\n" == head + "\n";
    }
  }

  lemma TrimOf(before: string, s: string, after: string)
    requires IsBlank(before) && IsTight(s) && IsBlank(after)
    ensures Trim(before + s + after) == s
    ensures TrimStart(before + s + after) == s + after
    ensures Indent(before + s + after) == |before|
  {
    assert before + s + after == before + (s + after);
    TrimStartOf(before, s + after);
    TrimEndOf(s, after);
  }

  lemma TrimBlank(space: string)
    requires IsBlank(space)
    ensures Trim(space) == ""
  {
    TrimStartOf(space, "");
    assert space + "" == space;
  }

  // --- The parts of a printed list ---

  datatype Part =
    | Blank(space: string)
    | Comment(space: string, text: string)
    | Value(space: string, gap: string, quote: string, value: string, trail: string)

  /** A key with the parts below it. */
  datatype Group = Group(name: string, parts: seq<Part>)

  /** Lines before the list, the parts before its first key, its groups, and the lines after it. */
  datatype Policy = Policy(before: seq<string>, lead: seq<Part>, groups: seq<Group>, after: seq<string>)

  function Show(part: Part): string {
    match part
    case Blank(space) => space
    case Comment(space, text) => space + ("#" + text)
    case Value(space, gap, quote, value, trail) => space + ("-" + gap + (quote + value + quote)) + trail
  }

  function ShowKey(name: string): string {
    "  " + name + ":"
  }

  function ShowGroup(group: Group): seq<string> {
    [ShowKey(group.name)] + Map(Show, group.parts)
  }

  function Render(p: Policy): seq<string> {
    p.before + ["actor_allowlist:"] + Map(Show, p.lead) + FlatMap(ShowGroup, p.groups) + p.after
  }

  ghost predicate IsSingleLine(s: string) {
    forall i :: 0 <= i < |s| ==> !IsTerminator(s[i])
  }

  /** Quoted values are arbitrary; plain ones must not begin or end with a space or a quote. A
      plain value two columns in must not end like a key. */
  ghost predicate IsPrintable(part: Part) {
    match part
    case Blank(space) => IsBlank(space)
    case Comment(space, _) => IsBlank(space)
    case Value(space, gap, quote, value, trail) =>
      && space != "" && IsBlank(space) && IsBlank(gap) && IsBlank(trail) && IsSingleLine(value)
      && (quote == "" || quote == "'" || quote == "\"")
      && (quote == "" ==>
        && IsTight(value) && !IsQuote(value[0]) && !IsQuote(value[|value|-1])
        && (|space| == 2 ==> value[|value|-1] != ':'))
  }

  ghost predicate IsKey(name: string) {
    name == "" || (!IsSpace(name[0]) && name[0] != '#')
  }

  ghost predicate IsPrintableGroup(group: Group) {
    IsKey(group.name) && forall part :: part in group.parts ==> IsPrintable(part)
  }

  /** The lines before the list do not open it, and the first line after it starts a new key. */
  ghost predicate IsPrintablePolicy(p: Policy) {
    && (forall line :: line in p.before ==> Scan(line).skipped || !Scan(line).opens)
    && (forall part :: part in p.lead ==> IsPrintable(part))
    && (forall group :: group in p.groups ==> IsPrintableGroup(group))
    && (p.after != [] ==> Scan(p.after[0]).topLevel && !Scan(p.after[0]).skipped)
  }

  /** The actors that the policy names. */
  ghost predicate Names(p: Policy, actor: string) {
    || (exists part :: part in p.lead && part.Value? && actor == Actor(None, part.value))
    || (exists group, part :: group in p.groups && part in group.parts && part.Value? && actor == Actor(Some(group.name), part.value))
  }

  // --- Reading back the parts ---

  lemma QuotedValue(quote: string, value: string)
    requires quote == "" || quote == "'" || quote == "\""
    requires quote == "" ==> IsTight(value) && !IsQuote(value[0]) && !IsQuote(value[|value|-1])
    ensures IsTight(quote + value + quote) && Unquote(quote + value + quote) == value
  {
    var x := quote + value + quote;
    if quote == "" {
      assert x == value;
    } else {
      assert x[1..] == value + quote;
      assert (value + quote)[..|value|] == value;
    }
  }

  lemma DashTrims(space: string, gap: string, x: string, trail: string)
    requires IsBlank(space) && IsBlank(gap) && IsBlank(trail) && IsTight(x)
    ensures var raw := space + ("-" + gap + x) + trail;
      Trim(raw) == "-" + gap + x && TrimStart(raw) == "-" + gap + x + trail && Indent(raw) == |space|
  {
    var item := "-" + gap + x;
    assert item[0] == '-' && item[|item|-1] == x[|x|-1];
    TrimOf(space, item, trail);
  }

  lemma AfterDash(gap: string, x: string, trail: string)
    ensures "-" + gap + x + trail != "" && ("-" + gap + x + trail)[0] == '-'
    ensures ("-" + gap + x + trail)[1..] == gap + x + trail
  {
  }

  lemma DashHoldsItem(space: string, gap: string, x: string, trail: string)
    requires IsBlank(space) && IsBlank(gap) && IsBlank(trail) && IsTight(x)
    ensures Item(space + ("-" + gap + x) + trail) == if IsSingleLine(x) then Some(Unquote(x)) else None
  {
    DashTrims(space, gap, x, trail);
    AfterDash(gap, x, trail);
    assert ValueIn(gap + x + trail) == if IsSingleLine(x) then Some(Unquote(x)) else None by {
      TrimOf(gap, x, trail);
    }
  }

  lemma DashNamesNoSection(space: string, gap: string, x: string, trail: string)
    requires IsBlank(space) && IsBlank(gap) && IsBlank(trail) && IsTight(x)
    requires |space| == 2 ==> x[|x|-1] != ':'
    ensures SectionName(space + ("-" + gap + x) + trail) == None
  {
    DashTrims(space, gap, x, trail);
    LastOf("-" + gap, x);
  }

  lemma LastOf(a: string, x: string)
    requires x != ""
    ensures a + x != "" && (a + x)[|a + x|-1] == x[|x|-1]
  {
  }

  lemma DashScans(space: string, gap: string, x: string, trail: string)
    requires space != "" && IsBlank(space) && IsBlank(gap) && IsBlank(trail) && IsTight(x)
    requires |space| == 2 ==> x[|x|-1] != ':'
    ensures var line := Scan(space + ("-" + gap + x) + trail);
      && !line.skipped && !line.topLevel && line.names.None?
      && line.item == if IsSingleLine(x) then Some(Unquote(x)) else None
  {
    DashTrims(space, gap, x, trail);
    DashHoldsItem(space, gap, x, trail);
    DashNamesNoSection(space, gap, x, trail);
    assert ("-" + gap + x)[0] == '-';
  }

  lemma QuotedEnd(part: Part)
    requires part.Value? && IsPrintable(part)
    ensures var x := part.quote + part.value + part.quote;
      IsTight(x) && IsSingleLine(x) && (|part.space| == 2 ==> x[|x|-1] != ':') && Unquote(x) == part.value
  {
    var x := part.quote + part.value + part.quote;
    QuotedValue(part.quote, part.value);
    assert part.quote != "" ==> x[|x|-1] == part.quote[0];
    assert part.quote == "" ==> x == part.value;
  }

  lemma ValueScans(part: Part)
    requires part.Value? && IsPrintable(part)
    ensures var line := Scan(Show(part));
      !line.skipped && !line.topLevel && line.names.None? && line.item == Some(part.value)
  {
    QuotedEnd(part);
    DashScans(part.space, part.gap, part.quote + part.value + part.quote, part.trail);
  }

  lemma GapScans(part: Part)
    requires !part.Value? && IsPrintable(part)
    ensures Scan(Show(part)).skipped
  {
    match part
    case Blank(space) => TrimBlank(space);
    case Comment(space, text) => CommentTrims(space, text);
  }

  lemma CommentTrims(space: string, text: string)
    requires IsBlank(space)
    ensures Trim(space + ("#" + text)) != "" && Trim(space + ("#" + text))[0] == '#'
  {
    TrimStartOf(space, "#" + text);
    TrimEndKeepsHead("#" + text);
  }

  lemma {:induction false} TrimEndKeepsHead(s: string)
    requires s != "" && !IsSpace(s[0])
    ensures TrimEnd(s) != "" && TrimEnd(s)[0] == s[0]
  {
    if |s| > 1 && IsSpace(s[|s|-1]) {
      TrimEndKeepsHead(s[..|s|-1]);
    }
  }

  lemma KeyScans(name: string)
    requires IsKey(name)
    ensures var line := Scan(ShowKey(name)); !line.skipped && !line.topLevel && line.names == Some(name)
  {
    var key := name + ":";
    assert ShowKey(name) == "  " + key + "";
    assert IsBlank("  ");
    TrimOf("  ", key, "");
    assert key[..|key|-1] == name;
  }

  lemma OpenerScans()
    ensures Scan("actor_allowlist:").opens && !Scan("actor_allowlist:").skipped
  {
    var s := "actor_allowlist:";
    assert s == "" + s + "";
    TrimOf("", s, "");
  }

  // --- Reading back the policy ---

  /** A line that leaves the list and its section as they are. */
  predicate IsQuiet(line: Line) {
    line.skipped || (!line.topLevel && line.names.None?)
  }

  ghost predicate Holds(lines: seq<Line>, value: string) {
    exists line :: line in lines && Entry(line) == Some(value)
  }

  lemma {:induction false} QuietLines(lines: seq<Line>, more: seq<Line>, section: Option<string>)
    requires StateAfter(lines) == Within(section) && forall line :: line in more ==> IsQuiet(line)
    ensures StateAfter(lines + more) == Within(section)
    ensures forall m :: m in Mentions(lines + more) <==> m in Mentions(lines) || (m.section == section && Holds(more, m.value))
  {
    if more == [] {
      assert lines + more == lines;
    } else {
      var front, last := more[..|more|-1], more[|more|-1];
      QuietLines(lines, front, section);
      assert last in more && forall line :: line in front ==> line in more;
      assert (lines + more)[..|lines + more|-1] == lines + front;
      forall m ensures m in Mentions(lines + more) <==> m in Mentions(lines) || (m.section == section && Holds(more, m.value)) {
        assert Holds(more, m.value) <==> Holds(front, m.value) || Entry(last) == Some(m.value) by {
          assert forall line :: line in more <==> line in front || line == last;
        }
      }
    }
  }

  /** A quiet line put into the list adds its entry, if it is one, and changes nothing else. */
  lemma {:induction false} InsertedLine(above: seq<Line>, line: Line, below: seq<Line>, section: Option<string>)
    requires StateAfter(above) == Within(section) && IsQuiet(line)
    ensures StateAfter(above + [line] + below) == StateAfter(above + below)
    ensures Mentions(above + [line] + below) == Mentions(above + below) + Gain(Within(section), line)
  {
    var all, without := above + [line] + below, above + below;
    if below == [] {
      assert all == above + [line] && all[..|all|-1] == above;
      assert without == above;
    } else {
      var front := below[..|below|-1];
      InsertedLine(above, line, front, section);
      assert all[..|all|-1] == above + [line] + front && without[..|without|-1] == above + front;
    }
  }

  /** A line may stand where an empty one may. */
  lemma LineCanBeJoined(above: seq<string>, line: string, below: seq<string>, crlf: seq<bool>)
    requires CanBeJoined(above + [""] + below, crlf) && '\n' !in line && WithoutReturn(line) == line
    ensures CanBeJoined(above + [line] + below, crlf)
  {
    var was, now := above + [""] + below, above + [line] + below;
    assert forall i :: 0 <= i < |now| ==> now[i] == if i == |above| then line else was[i];
  }

  /** A line that names a section, and the quiet lines below it. */
  datatype Block = Block(name: string, key: Line, body: seq<Line>)

  ghost predicate IsBlock(b: Block) {
    && !b.key.skipped && !b.key.topLevel && b.key.names == Some(b.name)
    && forall line :: line in b.body ==> IsQuiet(line)
  }

  function BlockLines(b: Block): seq<Line> {
    [b.key] + b.body
  }

  ghost predicate InBlock(b: Block, m: Mention) {
    m.section == Some(b.name) && Holds(b.body, m.value)
  }

  ghost predicate InBlocks(blocks: seq<Block>, m: Mention) {
    exists b :: b in blocks && InBlock(b, m)
  }

  lemma BlockReads(lines: seq<Line>, b: Block)
    requires StateAfter(lines).Within? && IsBlock(b)
    ensures StateAfter(lines + BlockLines(b)).Within?
    ensures forall m :: m in Mentions(lines + BlockLines(b)) <==> m in Mentions(lines) || InBlock(b, m)
  {
    var head := lines + [b.key];
    assert head[..|head|-1] == lines;
    assert StateAfter(head) == Within(Some(b.name)) && Mentions(head) == Mentions(lines);
    QuietLines(head, b.body, Some(b.name));
    assert lines + BlockLines(b) == head + b.body;
  }

  lemma LastBlock(blocks: seq<Block>, m: Mention)
    requires blocks != []
    ensures InBlocks(blocks, m) <==> InBlocks(blocks[..|blocks|-1], m) || InBlock(blocks[|blocks|-1], m)
  {
    assert forall b :: b in blocks <==> b in blocks[..|blocks|-1] || b == blocks[|blocks|-1];
  }

  lemma {:induction false} BlocksRead(lines: seq<Line>, blocks: seq<Block>)
    requires StateAfter(lines).Within? && forall b :: b in blocks ==> IsBlock(b)
    ensures StateAfter(lines + FlatMap(BlockLines, blocks)).Within?
    ensures forall m :: m in Mentions(lines + FlatMap(BlockLines, blocks)) <==> m in Mentions(lines) || InBlocks(blocks, m)
  {
    if blocks == [] {
      assert lines + FlatMap(BlockLines, blocks) == lines;
    } else {
      var front, last := blocks[..|blocks|-1], blocks[|blocks|-1];
      assert last in blocks && forall b :: b in front ==> b in blocks;
      BlocksRead(lines, front);
      BlockReads(lines + FlatMap(BlockLines, front), last);
      FlatMapLast(lines, BlockLines, blocks);
      forall m ensures InBlocks(blocks, m) <==> InBlocks(front, m) || InBlock(last, m) {
        LastBlock(blocks, m);
      }
    }
  }

  lemma {:induction false} NothingBefore(lines: seq<Line>)
    requires forall line :: line in lines ==> line.skipped || !line.opens
    ensures StateAfter(lines).Outside? && Mentions(lines) == {}
  {
    if lines != [] {
      var front := lines[..|lines|-1];
      assert lines[|lines|-1] in lines && forall line :: line in front ==> line in lines;
      NothingBefore(front);
    }
  }

  lemma NothingAfter(lines: seq<Line>, after: seq<Line>)
    requires StateAfter(lines).Within? && (after != [] ==> after[0].topLevel && !after[0].skipped)
    ensures Mentions(lines + after) == Mentions(lines)
  {
    if after == [] {
      assert lines + after == lines;
    } else {
      var all := lines + after;
      assert all[..|lines|] == lines;
      OneMoreLine(all, |lines|);
      PastStaysPast(all, |lines| + 1);
    }
  }

  /** The list between other lines. */
  lemma ListReads(before: seq<Line>, opener: Line, lead: seq<Line>, blocks: seq<Block>, after: seq<Line>)
    requires forall line :: line in before ==> line.skipped || !line.opens
    requires opener.opens && !opener.skipped
    requires forall line :: line in lead ==> IsQuiet(line)
    requires forall b :: b in blocks ==> IsBlock(b)
    requires after != [] ==> after[0].topLevel && !after[0].skipped
    ensures forall m :: m in Mentions(before + [opener] + lead + FlatMap(BlockLines, blocks) + after) <==>
      (m.section == None && Holds(lead, m.value)) || InBlocks(blocks, m)
  {
    NothingBefore(before);
    var head := before + [opener];
    assert head[..|head|-1] == before;
    assert StateAfter(head) == Within(None) && Mentions(head) == {};
    QuietLines(head, lead, None);
    BlocksRead(head + lead, blocks);
    NothingAfter(head + lead + FlatMap(BlockLines, blocks), after);
  }

  // --- The lines of a policy ---

  function ScanPart(part: Part): Line { Scan(Show(part)) }

  function ScanGroup(group: Group): Block {
    Block(group.name, Scan(ShowKey(group.name)), Map(ScanPart, group.parts))
  }

  ghost predicate HasValue(parts: seq<Part>, value: string) {
    exists part :: part in parts && part.Value? && part.value == value
  }

  ghost predicate ScansRight(scan: Part -> Line, part: Part) {
    IsQuiet(scan(part)) && Entry(scan(part)) == if part.Value? then Some(part.value) else None
  }

  lemma PartsAreQuiet(scan: Part -> Line, parts: seq<Part>)
    requires forall part :: part in parts ==> ScansRight(scan, part)
    ensures forall line :: line in Map(scan, parts) ==> IsQuiet(line)
    ensures forall value :: Holds(Map(scan, parts), value) <==> HasValue(parts, value)
  {
    var lines := Map(scan, parts);
    assert forall i :: 0 <= i < |parts| ==> parts[i] in parts && lines[i] in lines;
    forall value ensures Holds(lines, value) <==> HasValue(parts, value) {
      if line :| line in lines && Entry(line) == Some(value) {
        var i :| 0 <= i < |lines| && lines[i] == line;
        assert parts[i].Value?;
      }
      if part :| part in parts && part.Value? && part.value == value {
        var i :| 0 <= i < |parts| && parts[i] == part;
        assert Entry(lines[i]) == Some(value);
      }
    }
  }

  lemma LineIsRight(line: Line, part: Part)
    requires if part.Value? then !line.skipped && !line.topLevel && line.names.None? && line.item == Some(part.value) else line.skipped
    ensures IsQuiet(line) && Entry(line) == if part.Value? then Some(part.value) else None
  {
  }

  lemma PartScansRight(part: Part)
    requires IsPrintable(part)
    ensures ScansRight(ScanPart, part)
  {
    var line := Scan(Show(part));
    if part.Value? {
      ValueScans(part);
    } else {
      GapScans(part);
    }
    LineIsRight(line, part);
  }

  lemma PrintableParts(parts: seq<Part>)
    requires forall part :: part in parts ==> IsPrintable(part)
    ensures forall line :: line in Map(ScanPart, parts) ==> IsQuiet(line)
    ensures forall value :: Holds(Map(ScanPart, parts), value) <==> HasValue(parts, value)
  {
    forall part | part in parts ensures ScansRight(ScanPart, part) { PartScansRight(part); }
    PartsAreQuiet(ScanPart, parts);
  }

  ghost predicate InGroup(group: Group, m: Mention) {
    m.section == Some(group.name) && HasValue(group.parts, m.value)
  }

  lemma GroupIsBlock(group: Group)
    requires IsPrintableGroup(group)
    ensures IsBlock(ScanGroup(group)) && forall m :: InBlock(ScanGroup(group), m) <==> InGroup(group, m)
  {
    KeyScans(group.name);
    PrintableParts(group.parts);
  }

  ghost predicate IsBlockOf(block: Block, group: Group) {
    IsBlock(block) && forall m :: InBlock(block, m) <==> InGroup(group, m)
  }

  ghost predicate InGroups(groups: seq<Group>, m: Mention) {
    exists group :: group in groups && InGroup(group, m)
  }

  lemma GroupsAreBlocks(scan: Group -> Block, groups: seq<Group>)
    requires forall group :: group in groups ==> IsBlockOf(scan(group), group)
    ensures forall b :: b in Map(scan, groups) ==> IsBlock(b)
    ensures forall m :: InBlocks(Map(scan, groups), m) <==> InGroups(groups, m)
  {
    var blocks := Map(scan, groups);
    assert forall i :: 0 <= i < |groups| ==> groups[i] in groups && blocks[i] in blocks;
    forall m ensures InBlocks(blocks, m) <==> InGroups(groups, m) {
      if b :| b in blocks && InBlock(b, m) {
        var i :| 0 <= i < |blocks| && blocks[i] == b;
        assert InGroup(groups[i], m);
      }
      if group :| group in groups && InGroup(group, m) {
        var i :| 0 <= i < |groups| && groups[i] == group;
        assert InBlock(blocks[i], m);
      }
    }
  }

  /** The lines of a policy as the reader sees them. */
  function ScanPolicy(p: Policy): seq<Line> {
    Map(Scan, p.before) + [Scan("actor_allowlist:")] + Map(ScanPart, p.lead)
    + FlatMap(BlockLines, Map(ScanGroup, p.groups)) + Map(Scan, p.after)
  }

  ghost predicate Mentioned(p: Policy, m: Mention) {
    (m.section == None && HasValue(p.lead, m.value)) || InGroups(p.groups, m)
  }

  lemma PrintableGroups(groups: seq<Group>)
    requires forall group :: group in groups ==> IsPrintableGroup(group)
    ensures forall b :: b in Map(ScanGroup, groups) ==> IsBlock(b)
    ensures forall m :: InBlocks(Map(ScanGroup, groups), m) <==> InGroups(groups, m)
  {
    forall group | group in groups ensures IsBlockOf(ScanGroup(group), group) { GroupIsBlock(group); }
    GroupsAreBlocks(ScanGroup, groups);
  }

  lemma ScannedBefore(scan: string -> Line, before: seq<string>)
    requires forall line :: line in before ==> scan(line).skipped || !scan(line).opens
    ensures forall line :: line in Map(scan, before) ==> line.skipped || !line.opens
  {
    assert forall i :: 0 <= i < |before| ==> before[i] in before;
  }

  lemma PolicyReads(p: Policy)
    requires IsPrintablePolicy(p)
    ensures forall m :: m in Mentions(ScanPolicy(p)) <==> Mentioned(p, m)
  {
    var opener, lead, blocks := Scan("actor_allowlist:"), Map(ScanPart, p.lead), Map(ScanGroup, p.groups);
    var before, after := Map(Scan, p.before), Map(Scan, p.after);
    ScannedBefore(Scan, p.before);
    OpenerScans();
    PrintableParts(p.lead);
    PrintableGroups(p.groups);
    ListReads(before, opener, lead, blocks, after);
  }

  // --- Rendering, then reading ---

  lemma ScanOfParts(parts: seq<Part>)
    ensures Map(Scan, Map(Show, parts)) == Map(ScanPart, parts)
  {
  }

  lemma ScanOfGroup(group: Group)
    ensures Map(Scan, ShowGroup(group)) == BlockLines(ScanGroup(group))
  {
    MapTwo(Scan, [ShowKey(group.name)], Map(Show, group.parts));
    MapOne(Scan, ShowKey(group.name));
    ScanOfParts(group.parts);
  }

  lemma {:induction false} ScanOfGroups(groups: seq<Group>)
    ensures Map(Scan, FlatMap(ShowGroup, groups)) == FlatMap(BlockLines, Map(ScanGroup, groups))
  {
    if groups != [] {
      var front, last := groups[..|groups|-1], groups[|groups|-1];
      ScanOfGroups(front);
      MapTwo(Scan, FlatMap(ShowGroup, front), ShowGroup(last));
      ScanOfGroup(last);
    }
  }

  lemma ScanOfRender(p: Policy)
    ensures Map(Scan, Render(p)) == ScanPolicy(p)
  {
    var opener := ["actor_allowlist:"];
    MapTwo(Scan, p.before, opener);
    MapTwo(Scan, p.before + opener, Map(Show, p.lead));
    MapTwo(Scan, p.before + opener + Map(Show, p.lead), FlatMap(ShowGroup, p.groups));
    MapTwo(Scan, p.before + opener + Map(Show, p.lead) + FlatMap(ShowGroup, p.groups), p.after);
    ScanOfParts(p.lead);
    ScanOfGroups(p.groups);
    assert Map(Scan, opener) == [Scan("actor_allowlist:")];
  }

  /** A printed policy loads to exactly the actors that it names. */
  lemma LoadUndoesRender(p: Policy, actor: string)
    requires IsPrintablePolicy(p)
    ensures actor in Loaded(Render(p)) <==> Names(p, actor)
  {
    ScanOfRender(p);
    PolicyReads(p);
    if m :| Mentioned(p, m) && actor == Actor(m.section, m.value) {
      assert m in Mentions(ScanPolicy(p));
    }
    if Names(p, actor) {
      var m := NamedBy(p, actor);
      assert m in Mentions(ScanPolicy(p));
    }
  }

  lemma NamedBy(p: Policy, actor: string) returns (m: Mention)
    requires Names(p, actor)
    ensures Mentioned(p, m) && actor == Actor(m.section, m.value)
  {
    if part :| part in p.lead && part.Value? && actor == Actor(None, part.value) {
      m := Mention(None, part.value);
    } else {
      var group, part :| group in p.groups && part in group.parts && part.Value? && actor == Actor(Some(group.name), part.value);
      m := Mention(Some(group.name), part.value);
      assert InGroup(group, m);
    }
  }

  /** The same for the text of the file, with either line ending after any line. */
  lemma LoadUndoesPrint(p: Policy, crlf: seq<bool>, actor: string)
    requires IsPrintablePolicy(p) && CanBeJoined(Render(p), crlf)
    ensures actor in Loaded(SplitLines(JoinLines(Render(p), crlf))) <==> Names(p, actor)
  {
    SplitUndoesJoin(Render(p), crlf);
    LoadUndoesRender(p, actor);
  }

  // --- What a line says ---

  /** The line is a dash, a value on one line, and white space around them. */
  ghost predicate IsDashed(raw: string, s: string, g: string, x: string, t: string) {
    raw == s + ("-" + g + x) + t && IsBlank(s) && IsBlank(g) && IsBlank(t) && IsTight(x) && IsSingleLine(x)
  }

  lemma ValueOf(rest: string, v: string) returns (g: string, x: string, t: string)
    requires ValueIn(rest) == Some(v)
    ensures rest == g + x + t && IsBlank(g) && IsBlank(t) && IsTight(x) && IsSingleLine(x) && v == Unquote(x)
  {
    x := Trim(rest);
    g, t := TrimLeaves(rest);
  }

  lemma DashOf(raw: string, v: string) returns (s: string, g: string, x: string, t: string)
    requires Item(raw) == Some(v)
    ensures IsDashed(raw, s, g, x, t) && v == Unquote(x)
  {
    var r := TrimStart(raw);
    s := raw[..|raw| - |r|];
    g, x, t := ValueOf(r[1..], v);
    TrimStartLeaves(raw);
    DashText(raw, s, r, g, x, t);
  }

  lemma DashText(raw: string, s: string, r: string, g: string, x: string, t: string)
    requires |r| <= |raw| && s == raw[..|raw| - |r|] && r == raw[|raw| - |r|..] && r != "" && r[0] == '-' && r[1..] == g + x + t
    ensures raw == s + ("-" + g + x) + t
  {
    assert r == "-" + (g + x + t);
    assert raw == s + r;
    Regroup("-", g + x, t);
    Regroup("-", g, x);
    Regroup(s, "-" + g + x, t);
  }

  /** An item is what follows a dash, on one line, without its quotes. */
  lemma ItemExactlyWhen(raw: string, v: string)
    ensures Item(raw) == Some(v) <==> exists s, g, x, t :: IsDashed(raw, s, g, x, t) && v == Unquote(x)
  {
    if Item(raw) == Some(v) {
      var s, g, x, t := DashOf(raw, v);
    }
    if s, g, x, t :| IsDashed(raw, s, g, x, t) && v == Unquote(x) {
      DashHoldsItem(s, g, x, t);
    }
  }

  /** The line is a key two columns in, with white space around it. */
  ghost predicate IsKeyLine(raw: string, s: string, name: string, t: string) {
    raw == s + (name + ":") + t && |s| == 2 && IsBlank(s) && IsBlank(t) && IsTight(name + ":")
  }

  lemma SectionExactlyWhen(raw: string, name: string)
    ensures SectionName(raw) == Some(name) <==> exists s, t :: IsKeyLine(raw, s, name, t)
  {
    if SectionName(raw) == Some(name) {
      var s, t := KeyOf(raw, name);
    }
    if s, t :| IsKeyLine(raw, s, name, t) {
      KeyLineNames(raw, s, name, t);
    }
  }

  lemma KeyOf(raw: string, name: string) returns (s: string, t: string)
    requires SectionName(raw) == Some(name)
    ensures IsKeyLine(raw, s, name, t)
  {
    s, t := TrimLeaves(raw);
    KeyText(Trim(raw), name);
  }

  lemma KeyText(key: string, name: string)
    requires key != "" && key[|key|-1] == ':' && name == key[..|key|-1]
    ensures key == name + ":"
  {
  }

  lemma KeyLineNames(raw: string, s: string, name: string, t: string)
    requires IsKeyLine(raw, s, name, t)
    ensures SectionName(raw) == Some(name)
  {
    var key := name + ":";
    TrimOf(s, key, t);
    assert key[|key|-1] == ':' && key[..|key|-1] == name;
  }

  ghost predicate IsCommentLine(raw: string) {
    exists a, rest :: IsBlank(a) && raw == a + ("#" + rest)
  }

  lemma SkippedExactlyWhen(raw: string)
    ensures Scan(raw).skipped <==> IsBlank(raw) || IsCommentLine(raw)
  {
    if IsBlank(raw) {
      BlankTrims(raw);
    }
    if IsCommentLine(raw) {
      var a, rest :| IsBlank(a) && raw == a + ("#" + rest);
      CommentTrims(a, rest);
    }
    if Scan(raw).skipped {
      SkippedIs(raw);
    }
  }

  lemma SkippedIs(raw: string)
    requires Trim(raw) == "" || Trim(raw)[0] == '#'
    ensures IsBlank(raw) || IsCommentLine(raw)
  {
    var a, b := TrimLeaves(raw);
    if Trim(raw) == "" {
      assert raw == a + b;
    } else {
      CommentText(raw, a, Trim(raw), b);
    }
  }

  lemma CommentText(raw: string, a: string, t: string, b: string)
    requires IsBlank(a) && raw == a + t + b && t != "" && t[0] == '#'
    ensures IsCommentLine(raw)
  {
    assert t == "#" + t[1..];
    Regroup("#", t[1..], b);
    Regroup(a, t, b);
    assert raw == a + ("#" + (t[1..] + b));
  }

  /** Blank lines and comments are skipped, the list begins at its key, and a key in column 0 has
      nothing in front of it. */
  lemma LinesAreSeen(raw: string)
    ensures Scan(raw).skipped <==> IsBlank(raw) || IsCommentLine(raw)
    ensures Scan(raw).opens <==> IsCore(raw, "actor_allowlist:")
    ensures Scan(raw).topLevel <==> raw == "" || !IsSpace(raw[0])
  {
    SkippedExactlyWhen(raw);
    TrimExactlyWhen(raw, "actor_allowlist:");
  }

  ghost predicate IsQuoteMark(q: string) {
    q == "'" || q == "\""
  }

  /** One quote is taken off at either end, whichever it is, and no more. */
  lemma QuotesAreTakenOff(a: string, v: string, b: string)
    requires IsQuoteMark(a) || (a == "" && (v == "" || !IsQuoteMark(v[..1])))
    requires IsQuoteMark(b) || (b == "" && v != "" && !IsQuoteMark(v[|v|-1..]))
    ensures Unquote(a + v + b) == v
  {
    var x := a + v + b;
    if a == "" {
      assert x == v + b;
      NoQuoteFirst(v, b);
    } else {
      assert x[0] == a[0] && x[1..] == v + b;
    }
    EndQuote(v, b);
  }

  lemma NoQuoteFirst(v: string, b: string)
    requires v == "" || !IsQuoteMark(v[..1])
    requires IsQuoteMark(b) || (b == "" && v != "")
    ensures var x := v + b; if v == "" then x == b && x[1..] == "" else !IsQuote(x[0])
  {
    if v != "" {
      assert v[..1] == [v[0]] && (v + b)[0] == v[0];
    }
  }

  lemma EndQuote(v: string, b: string)
    requires IsQuoteMark(b) || (b == "" && v != "" && !IsQuoteMark(v[|v|-1..]))
    ensures var t := v + b; t != "" && (if IsQuote(t[|t|-1]) then t[..|t|-1] else t) == v
  {
    if b == "" {
      assert v + b == v && v[|v|-1..] == [v[|v|-1]];
    } else {
      assert (v + b)[..|v|] == v && (v + b)[|v|] == b[0];
    }
  }

  /** An entry is the actor that it spells, or the name of one, after the section's kind. */
  lemma EntriesAreActors(value: string)
    ensures Actor(Some("users"), value) == if StartsWith(value, "user:") then value else "user:" + value
    ensures Actor(Some("agents"), value) == if StartsWith(value, "agent:") then value else "agent:" + value
    ensures Actor(Some("systems"), value) == if StartsWith(value, "system:") then value else "system:" + value
    ensures Actor(None, value) == value
  {
    assert "users"[0] == 'u' && "agents"[0] == 'a' && "systems"[0] == 's';
  }
}
