/** The canonical serialisation under every catalogue hash
    (src/agent-discovery-catalog.ts): JSON without whitespace, object keys sorted. */
module CanonicalJson {
  import opened Lists
  import opened Options
  import opened Sorting
  import opened Strings
  import opened Utf16

  /** What `JSON.stringify` prints for a finite number. Only two facts about it matter:
      it begins with a digit or a minus sign, and it is made of these characters. */
  predicate IsNumberText(t: string) {
    t != "" && t[0] in "-0123456789" && forall i :: 0 <= i < |t| ==> t[i] in "-+.e0123456789"
  }

  type NumberText = t: string | IsNumberText(t) witness "0"

  /** A JavaScript value as `JSON.stringify` sees it. The members of an object are listed in
      the order in which they were added. */
  datatype Json =
    | Undefined
    | Null
    | Bool(b: bool)
    | Number(text: NumberText)
    | String(s: string)
    | Array(items: seq<Json>)
    | Object(members: seq<Member>)

  datatype Member = Member(key: string, value: Json)

  // --- Quoted strings ---

  function HexDigit(n: int): char
    requires 0 <= n < 16
  {
    "0123456789abcdef"[n]
  }

  /** Section 7 of RFC 8259, with the short escapes where there are any. */
  function EscapeChar(c: char): string {
    if c == '\"' then "\\\""
    else if c == '\\' then "\\\\"
    else if c as int == 8 then "\\b"
    else if c as int == 9 then "\\t"
    else if c as int == 10 then "\\n"
    else if c as int == 12 then "\\f"
    else if c as int == 13 then "\\r"
    else if c as int < 0x20 then "\\u00" + [HexDigit(c as int / 16), HexDigit(c as int % 16)]
    else [c]
  }

  function Escape(s: string): string {
    if s == "" then "" else EscapeChar(s[0]) + Escape(s[1..])
  }

  function Quote(s: string): string {
    "\"" + Escape(s) + "\""
  }

  // --- Serialisation ---

  datatype Entry = Entry(key: string, text: string)

  function KeyOf(e: Entry): string { e.key }

  /** The text of a value where an object member stands; `undefined` prints as a word there. */
  function Text(v: Json): string
    decreases v, 0
  {
    match v
    case Undefined => "undefined"
    case Null => "null"
    case Bool(b) => if b then "true" else "false"
    case Number(text) => text
    case String(s) => Quote(s)
    case Array(items) => "[" + JoinItems(items) + "]"
    case Object(members) => "{" + JoinEntries(SortedEntries(members)) + "}"
  }

  /** `Array.prototype.join` prints nothing for `undefined`. */
  function ItemText(v: Json): string
    decreases v, 1
  {
    if v.Undefined? then "" else Text(v)
  }

  function JoinItems(items: seq<Json>): string
    decreases items, 0
  {
    if items == [] then ""
    else if |items| == 1 then ItemText(items[0])
    else ItemText(items[0]) + "," + JoinItems(items[1..])
  }

  function Entries(members: seq<Member>): (e: seq<Entry>)
    decreases members, 0
    ensures |e| == |members|
    ensures forall i :: 0 <= i < |e| ==> e[i] == Entry(members[i].key, Text(members[i].value))
  {
    if members == [] then [] else [Entry(members[0].key, Text(members[0].value))] + Entries(members[1..])
  }

  function SortedEntries(members: seq<Member>): (e: seq<Entry>)
    ensures forall x :: x in e <==> x in Entries(members)
    decreases members, 1
  {
    var e := Sort(Entries(members), KeyOf, StringLe);
    assert forall x :: x in e <==> x in multiset(e);
    assert forall x :: x in Entries(members) <==> x in multiset(Entries(members));
    e
  }

  function EntryText(e: Entry): string {
    Quote(e.key) + ":" + e.text
  }

  function JoinEntries(entries: seq<Entry>): string {
    if entries == [] then ""
    else if |entries| == 1 then EntryText(entries[0])
    else EntryText(entries[0]) + "," + JoinEntries(entries[1..])
  }

  /** Nothing for `undefined`, a text for every other value. */
  function CanonicalJson(v: Json): Option<string> {
    if v.Undefined? then None else Some(Text(v))
  }

  // --- Equality up to the order of object keys ---

  ghost predicate DistinctKeys(members: seq<Member>) {
    forall i, j :: 0 <= i < j < |members| ==> members[i].key != members[j].key
  }

  /** No object has the same key twice. */
  ghost predicate Valid(v: Json) {
    match v
    case Array(items) => forall i :: 0 <= i < |items| ==> Valid(items[i])
    case Object(members) => DistinctKeys(members) && forall i :: 0 <= i < |members| ==> Valid(members[i].value)
    case _ => true
  }

  ghost function Keys(members: seq<Member>): set<string> {
    set m | m in members :: m.key
  }

  /** Objects are equal when they have the same keys, with equal values under them. */
  ghost predicate EqualUpToKeyOrder(v: Json, w: Json) {
    match (v, w)
    case (Array(xs), Array(ys)) =>
      |xs| == |ys| && forall i :: 0 <= i < |xs| ==> EqualUpToKeyOrder(xs[i], ys[i])
    case (Object(ms), Object(ns)) =>
      && Keys(ms) == Keys(ns)
      && forall i, j :: 0 <= i < |ms| && 0 <= j < |ns| && ms[i].key == ns[j].key ==> EqualUpToKeyOrder(ms[i].value, ns[j].value)
    case _ => v == w
  }

  /** No array at any depth consists of a single `undefined`. */
  ghost predicate NoLoneUndefined(v: Json) {
    match v
    case Array(items) => items != [Undefined] && forall i :: 0 <= i < |items| ==> NoLoneUndefined(items[i])
    case Object(members) => forall i :: 0 <= i < |members| ==> NoLoneUndefined(members[i].value)
    case _ => true
  }

  // --- A reader ---

  /** What has been read, and the text that follows. */
  datatype Read<T> = Read(value: T, rest: string)

  function HexValue(c: char): Option<int> {
    if '0' <= c <= '9' then Some(c as int - '0' as int)
    else if 'a' <= c <= 'f' then Some(c as int - 'a' as int + 10)
    else if 'A' <= c <= 'F' then Some(c as int - 'A' as int + 10)
    else None
  }

  /** Four hexadecimal digits, for a character that is no surrogate. */
  function ReadHex(t: string): (r: Option<Read<char>>)
    ensures r.Some? ==> |r.value.rest| < |t|
  {
    if |t| < 4 || HexValue(t[0]).None? || HexValue(t[1]).None? || HexValue(t[2]).None? || HexValue(t[3]).None? then None
    else
      var n := 4096 * HexValue(t[0]).value + 256 * HexValue(t[1]).value + 16 * HexValue(t[2]).value + HexValue(t[3]).value;
      if 0 <= n < 0xD800 || 0xE000 <= n < 0x1_0000 then Some(Read(n as char, t[4..])) else None
  }

  /** What follows a backslash. */
  function ReadEscape(t: string): (r: Option<Read<char>>)
    ensures r.Some? ==> |r.value.rest| < |t|
  {
    if t == "" then None
    else if t[0] == '\"' || t[0] == '\\' || t[0] == '/' then Some(Read(t[0], t[1..]))
    else if t[0] == 'b' then Some(Read(8 as char, t[1..]))
    else if t[0] == 't' then Some(Read(9 as char, t[1..]))
    else if t[0] == 'n' then Some(Read(10 as char, t[1..]))
    else if t[0] == 'f' then Some(Read(12 as char, t[1..]))
    else if t[0] == 'r' then Some(Read(13 as char, t[1..]))
    else if t[0] == 'u' then ReadHex(t[1..])
    else None
  }

  /** One character of a quoted string; control characters must be escaped. */
  function ReadChar(t: string): (r: Option<Read<char>>)
    ensures r.Some? ==> |r.value.rest| < |t|
  {
    if t == "" || t[0] as int < 0x20 then None
    else if t[0] == '\\' then ReadEscape(t[1..])
    else Some(Read(t[0], t[1..]))
  }

  /** The rest of a quoted string, with its closing quote. */
  function ReadQuoted(t: string): (r: Option<Read<string>>)
    ensures r.Some? ==> |r.value.rest| < |t|
    decreases |t|
  {
    if t != "" && t[0] == '\"' then Some(Read("", t[1..]))
    else
      match ReadChar(t)
      case None => None
      case Some(Read(c, rest)) =>
        match ReadQuoted(rest)
        case None => None
        case Some(Read(more, end)) => Some(Read([c] + more, end))
  }

  /** How many characters that numbers are made of stand in front. */
  function NumberLength(t: string): (n: nat)
    ensures n <= |t|
  {
    if t != "" && t[0] in "-+.e0123456789" then 1 + NumberLength(t[1..]) else 0
  }

  function ReadNumber(t: string): (r: Option<Read<Json>>)
    ensures r.Some? ==> |r.value.rest| < |t|
  {
    var n := NumberLength(t);
    if IsNumberText(t[..n]) then Some(Read(Number(t[..n]), t[n..])) else None
  }

  function ReadWord(t: string): (r: Option<Read<Json>>)
    ensures r.Some? ==> |r.value.rest| < |t|
  {
    if StartsWith(t, "undefined") then Some(Read(Undefined, t[9..]))
    else if StartsWith(t, "null") then Some(Read(Null, t[4..]))
    else if StartsWith(t, "true") then Some(Read(Bool(true), t[4..]))
    else if StartsWith(t, "false") then Some(Read(Bool(false), t[5..]))
    else None
  }

  function ReadString(t: string): (r: Option<Read<Json>>)
    ensures r.Some? ==> |r.value.rest| < |t|
  {
    match ReadQuoted(t)
    case None => None
    case Some(Read(s, rest)) => Some(Read(String(s), rest))
  }

  /** The first character decides. */
  function ReadValue(t: string): (r: Option<Read<Json>>)
    ensures r.Some? ==> |r.value.rest| < |t|
    decreases |t|, 0
  {
    if t == "" then None
    else if t[0] == '\"' then ReadString(t[1..])
    else if t[0] == '[' then ReadArray(t[1..])
    else if t[0] == '{' then ReadObject(t[1..])
    else if t[0] == '-' || '0' <= t[0] <= '9' then ReadNumber(t)
    else ReadWord(t)
  }

  function ReadArray(t: string): (r: Option<Read<Json>>)
    ensures r.Some? ==> |r.value.rest| < |t|
    decreases |t|, 3
  {
    if StartsWith(t, "]") then Some(Read(Array([]), t[1..]))
    else
      match ReadItems(t)
      case None => None
      case Some(Read(items, rest)) => Some(Read(Array(items), rest))
  }

  function ReadObject(t: string): (r: Option<Read<Json>>)
    ensures r.Some? ==> |r.value.rest| < |t|
    decreases |t|, 3
  {
    if StartsWith(t, "}") then Some(Read(Object([]), t[1..]))
    else
      match ReadMembers(t)
      case None => None
      case Some(Read(members, rest)) => Some(Read(Object(members), rest))
  }

  /** An item of an array, which may be absent. */
  function ReadItem(t: string): (r: Option<Read<Json>>)
    ensures r.Some? ==> |r.value.rest| <= |t|
    decreases |t|, 1
  {
    if StartsWith(t, ",") || StartsWith(t, "]") then Some(Read(Undefined, t)) else ReadValue(t)
  }

  /** The rest of an array, with its closing bracket. */
  function ReadItems(t: string): (r: Option<Read<seq<Json>>>)
    ensures r.Some? ==> |r.value.rest| < |t|
    decreases |t|, 2
  {
    match ReadItem(t)
    case None => None
    case Some(Read(v, rest)) =>
      if StartsWith(rest, "]") then Some(Read([v], rest[1..]))
      else if StartsWith(rest, ",") then
        match ReadItems(rest[1..])
        case None => None
        case Some(Read(more, end)) => Some(Read([v] + more, end))
      else None
  }

  function ReadMember(t: string): (r: Option<Read<Member>>)
    ensures r.Some? ==> |r.value.rest| < |t|
    decreases |t|, 1
  {
    if !StartsWith(t, "\"") then None
    else
      match ReadQuoted(t[1..])
      case None => None
      case Some(Read(key, rest)) =>
        if !StartsWith(rest, ":") then None
        else
          match ReadValue(rest[1..])
          case None => None
          case Some(Read(value, end)) => Some(Read(Member(key, value), end))
  }

  /** The rest of an object, with its closing brace. */
  function ReadMembers(t: string): (r: Option<Read<seq<Member>>>)
    ensures r.Some? ==> |r.value.rest| < |t|
    decreases |t|, 2
  {
    match ReadMember(t)
    case None => None
    case Some(Read(m, rest)) =>
      if StartsWith(rest, "}") then Some(Read([m], rest[1..]))
      else if StartsWith(rest, ",") then
        match ReadMembers(rest[1..])
        case None => None
        case Some(Read(more, end)) => Some(Read([m] + more, end))
      else None
  }

  // --- The value that is read back ---

  function MemberKey(m: Member): string { m.key }

  /** The same value with the members of every object in the order of their keys. */
  function SortKeys(v: Json): Json
    decreases v, 0
  {
    match v
    case Array(items) => Array(SortKeysOfItems(items))
    case Object(members) => Object(Sort(SortKeysOfMembers(members), MemberKey, StringLe))
    case _ => v
  }

  function SortKeysOfItems(items: seq<Json>): (r: seq<Json>)
    ensures |r| == |items| && forall i :: 0 <= i < |r| ==> r[i] == SortKeys(items[i])
    decreases items, 0
  {
    if items == [] then [] else [SortKeys(items[0])] + SortKeysOfItems(items[1..])
  }

  function SortKeysOfMembers(members: seq<Member>): (r: seq<Member>)
    ensures |r| == |members| && forall i :: 0 <= i < |r| ==> r[i] == Member(members[i].key, SortKeys(members[i].value))
    decreases members, 0
  {
    if members == [] then [] else [Member(members[0].key, SortKeys(members[0].value))] + SortKeysOfMembers(members[1..])
  }

  /** What may follow the text of a value inside a larger text. */
  predicate Stops(r: string) {
    r == "" || r[0] in ",]}"
  }

  ghost predicate ReadsBack(v: Json) {
    forall r :: Stops(r) ==> ReadValue(Text(v) + r) == Some(Read(SortKeys(v), r))
  }

  // --- Quoted strings are read back ---

  lemma HexIsRead(n: int)
    requires 0 <= n < 16
    ensures HexValue(HexDigit(n)) == Some(n)
  {
  }

  lemma CharIsRead(c: char, r: string)
    ensures var t := EscapeChar(c) + r; t != "" && t[0] != '\"' && ReadChar(t) == Some(Read(c, r))
  {
    var t := EscapeChar(c) + r;
    if |EscapeChar(c)| == 6 {
      HexIsRead(c as int / 16);
      HexIsRead(c as int % 16);
      assert t[1..][1..] == "00" + [HexDigit(c as int / 16), HexDigit(c as int % 16)] + r;
      assert t[1..][1..][4..] == r;
    } else if |EscapeChar(c)| == 2 {
      assert t[1..][0] == EscapeChar(c)[1] && t[1..][1..] == r;
    } else {
      assert t[1..] == r;
    }
  }

  lemma {:induction false} QuotedIsRead(s: string, r: string)
    ensures ReadQuoted(Escape(s) + "\"" + r) == Some(Read(s, r))
  {
    var t := Escape(s) + "\"" + r;
    if s == "" {
      assert t == "\"" + r && t[1..] == r;
    } else {
      var rest := Escape(s[1..]) + "\"" + r;
      assert t == EscapeChar(s[0]) + rest;
      CharIsRead(s[0], rest);
      QuotedIsRead(s[1..], r);
      assert s == [s[0]] + s[1..];
    }
  }

  lemma AfterQuote(s: string, r: string)
    ensures var t := Quote(s) + r; StartsWith(t, "\"") && t[1..] == Escape(s) + "\"" + r
  {
    assert Quote(s) + r == "\"" + (Escape(s) + "\"" + r);
  }

  /** A character is escaped only when it has to be, by two characters when there is such an escape,
      and else by lower-case digits. */
  lemma EscapesAreShortest(c: char)
    ensures |EscapeChar(c)| == 1 <==> c as int >= 0x20 && c != '\"' && c != '\\'
    ensures |EscapeChar(c)| == 2 <==> c as int in {8, 9, 10, 12, 13, 0x22, 0x5C}
    ensures |EscapeChar(c)| <= 2 || (|EscapeChar(c)| == 6 && forall i :: 0 <= i < 6 ==> !('A' <= EscapeChar(c)[i] <= 'Z'))
  {
  }

  /** A quoted string can be told apart whatever follows. */
  lemma QuoteIsAPrefixCode(s: string, t: string, q: string, r: string)
    requires Quote(s) + q == Quote(t) + r
    ensures s == t && q == r
  {
    AfterQuote(s, q);
    AfterQuote(t, r);
    QuotedIsRead(s, q);
    QuotedIsRead(t, r);
  }

  // --- Values are read back ---

  /** The first character tells what kind of value follows. */
  predicate Starts(v: Json, c: char) {
    match v
    case Undefined => c == 'u'
    case Null => c == 'n'
    case Bool(b) => c == if b then 't' else 'f'
    case Number(_) => c in "-0123456789"
    case String(_) => c == '\"'
    case Array(_) => c == '['
    case Object(_) => c == '{'
  }

  lemma TextStarts(v: Json)
    ensures Text(v) != "" && Starts(v, Text(v)[0])
  {
  }

  lemma WordByHead(t: string)
    requires t != "" && (t[0] == 'u' || t[0] == 'n' || t[0] == 't' || t[0] == 'f')
    ensures ReadValue(t) == ReadWord(t)
  {
  }

  lemma NumberByHead(t: string)
    requires t != "" && (t[0] == '-' || '0' <= t[0] <= '9')
    ensures ReadValue(t) == ReadNumber(t)
  {
    var c := t[0];
    assert c != '\"' && c != '[' && c != '{';
  }

  lemma ArrayByHead(t: string)
    ensures ReadValue("[" + t) == ReadArray(t)
  {
    assert ("[" + t)[0] == '[' && ("[" + t)[1..] == t;
  }

  lemma ObjectByHead(t: string)
    ensures ReadValue("{" + t) == ReadObject(t)
  {
    assert ("{" + t)[0] == '{' && ("{" + t)[1..] == t;
  }

  lemma ItemByHead(t: string)
    requires t != ""
    ensures t[0] == ',' || t[0] == ']' ==> ReadItem(t) == Some(Read(Undefined, t))
    ensures t[0] != ',' && t[0] != ']' ==> ReadItem(t) == ReadValue(t)
  {
  }

  lemma WordIsWhole(w: string, r: string)
    ensures StartsWith(w + r, w) && (w + r)[|w|..] == r && (w != "" ==> (w + r)[0] == w[0])
  {
  }

  lemma WordsAreRead(r: string)
    ensures ReadValue("undefined" + r) == Some(Read(Undefined, r)) && ReadValue("null" + r) == Some(Read(Null, r))
    ensures ReadValue("true" + r) == Some(Read(Bool(true), r)) && ReadValue("false" + r) == Some(Read(Bool(false), r))
  {
    WordIsWhole("undefined", r);
    WordIsWhole("null", r);
    WordIsWhole("true", r);
    WordIsWhole("false", r);
    WordByHead("undefined" + r);
    WordByHead("null" + r);
    WordByHead("true" + r);
    WordByHead("false" + r);
  }

  lemma WordIsRead(v: Json, r: string)
    requires v.Undefined? || v.Null? || v.Bool?
    ensures ReadValue(Text(v) + r) == Some(Read(v, r))
  {
    WordsAreRead(r);
  }

  lemma {:induction false} NumberEnds(t: string, r: string)
    requires Stops(r) && forall i :: 0 <= i < |t| ==> t[i] in "-+.e0123456789"
    ensures NumberLength(t + r) == |t|
  {
    if t == "" {
      assert t + r == r;
    } else {
      NumberEnds(t[1..], r);
      assert (t + r)[1..] == t[1..] + r;
    }
  }

  lemma NumberIsRead(t: NumberText, r: string)
    requires Stops(r)
    ensures ReadValue(t + r) == Some(Read(Number(t), r))
  {
    NumberEnds(t, r);
    assert (t + r)[0] == t[0] && (t[0] == '-' || '0' <= t[0] <= '9');
    NumberByHead(t + r);
    assert (t + r)[..|t|] == t && (t + r)[|t|..] == r;
  }

  lemma StringIsRead(s: string, r: string)
    ensures ReadValue(Quote(s) + r) == Some(Read(String(s), r))
  {
    AfterQuote(s, r);
    QuotedIsRead(s, r);
    assert (Quote(s) + r)[0] == '\"';
  }

  // --- Arrays are read back ---

  /** What follows the first item of a list. */
  function AfterFirst(items: seq<Json>, q: string): string
    requires items != []
  {
    if |items| == 1 then "]" + q else "," + (JoinItems(items[1..]) + "]" + q)
  }

  lemma JoinItemsHead(items: seq<Json>, q: string)
    requires items != []
    ensures JoinItems(items) + "]" + q == ItemText(items[0]) + AfterFirst(items, q)
    ensures Stops(AfterFirst(items, q)) && (StartsWith(AfterFirst(items, q), ",") || StartsWith(AfterFirst(items, q), "]"))
  {
    var a := ItemText(items[0]);
    if |items| == 1 {
      Regroup(a, "]", q);
    } else {
      Between(a, ",", JoinItems(items[1..]), "]", q);
    }
  }

  lemma Between(a: string, b: string, c: string, d: string, e: string)
    ensures (a + b + c) + d + e == a + (b + (c + d + e))
  {
  }

  lemma NoSeparatorStarts(v: Json, c: char)
    requires Starts(v, c)
    ensures c != ',' && c != ']'
  {
  }

  lemma ItemIsRead(v: Json, r: string)
    requires v.Undefined? || ReadsBack(v)
    requires Stops(r) && (StartsWith(r, ",") || StartsWith(r, "]"))
    ensures ReadItem(ItemText(v) + r) == Some(Read(SortKeys(v), r))
  {
    var t := ItemText(v) + r;
    if v.Undefined? {
      assert t == r;
    } else {
      TextStarts(v);
      NoSeparatorStarts(v, Text(v)[0]);
      assert t[0] == Text(v)[0];
    }
    ItemByHead(t);
  }

  lemma {:induction false} ItemsAreRead(items: seq<Json>, r: string)
    requires items != [] && forall i :: 0 <= i < |items| ==> items[i].Undefined? || ReadsBack(items[i])
    ensures ReadItems(JoinItems(items) + "]" + r) == Some(Read(SortKeysOfItems(items), r))
    decreases |items|
  {
    var after := AfterFirst(items, r);
    JoinItemsHead(items, r);
    ItemIsRead(items[0], after);
    if |items| == 1 {
      assert after[0] == ']' && after[1..] == r;
      assert SortKeysOfItems(items) == [SortKeys(items[0])];
    } else {
      assert after[0] == ',' && after[1..] == JoinItems(items[1..]) + "]" + r;
      ItemsAreRead(items[1..], r);
    }
  }

  /** A list that is neither empty nor a lone `undefined` does not print as nothing. */
  lemma NonEmptyArrayGoesOn(items: seq<Json>, q: string)
    requires items != [] && items != [Undefined]
    ensures (JoinItems(items) + "]" + q)[0] != ']'
  {
    JoinItemsHead(items, q);
    TextStarts(items[0]);
    var whole := ItemText(items[0]) + AfterFirst(items, q);
    if items[0].Undefined? {
      assert |items| > 1;
      assert whole[0] == ',';
    } else {
      assert whole[0] == Text(items[0])[0];
    }
  }

  lemma ArrayIsRead(items: seq<Json>, r: string)
    requires items != [Undefined] && forall i :: 0 <= i < |items| ==> items[i].Undefined? || ReadsBack(items[i])
    ensures ReadValue(Text(Array(items)) + r) == Some(Read(SortKeys(Array(items)), r))
  {
    var inside := JoinItems(items) + "]" + r;
    ArrayText(items, r);
    ArrayByHead(inside);
    if items == [] {
      assert inside == "]" + r && inside[1..] == r;
    } else {
      NonEmptyArrayGoesOn(items, r);
      ItemsAreRead(items, r);
    }
  }

  lemma ArrayText(items: seq<Json>, r: string)
    ensures Text(Array(items)) + r == "[" + (JoinItems(items) + "]" + r)
  {
    Between("[", JoinItems(items), "", "]", r);
    assert JoinItems(items) + "" == JoinItems(items);
    assert "[" + JoinItems(items) + "" == "[" + JoinItems(items);
    Regroup("[", JoinItems(items) + "]", r);
    Regroup("[", JoinItems(items), "]");
  }

  // --- Objects are read back ---

  function EntryOf(m: Member): Entry { Entry(m.key, Text(m.value)) }

  function SortedMember(m: Member): Member { Member(m.key, SortKeys(m.value)) }

  function SortMembers(ms: seq<Member>): seq<Member> {
    Sort(ms, MemberKey, StringLe)
  }

  /** Sorting the entries, or the members with sorted values, is sorting the members. */
  lemma SortingCommutes(ms: seq<Member>)
    ensures SortedEntries(ms) == Entries(SortMembers(ms))
    ensures Sort(SortKeysOfMembers(ms), MemberKey, StringLe) == SortKeysOfMembers(SortMembers(ms))
  {
    assert Entries(ms) == Map(EntryOf, ms) && Entries(SortMembers(ms)) == Map(EntryOf, SortMembers(ms));
    SortMapped(EntryOf, ms, MemberKey, KeyOf, StringLe);
    assert SortKeysOfMembers(ms) == Map(SortedMember, ms) && SortKeysOfMembers(SortMembers(ms)) == Map(SortedMember, SortMembers(ms));
    SortMapped(SortedMember, ms, MemberKey, MemberKey, StringLe);
  }

  function AfterFirstEntry(entries: seq<Entry>, q: string): string
    requires entries != []
  {
    if |entries| == 1 then "}" + q else "," + (JoinEntries(entries[1..]) + "}" + q)
  }

  lemma JoinEntriesHead(entries: seq<Entry>, q: string)
    requires entries != []
    ensures JoinEntries(entries) + "}" + q == Quote(entries[0].key) + (":" + (entries[0].text + AfterFirstEntry(entries, q)))
    ensures Stops(AfterFirstEntry(entries, q))
  {
    var k, x := Quote(entries[0].key) + ":", entries[0].text;
    if |entries| == 1 {
      Between(k, x, "", "}", q);
      assert k + x + "" == k + x && x + ("" + "}" + q) == x + ("}" + q);
      Regroup(Quote(entries[0].key), ":", x + ("}" + q));
    } else {
      var b := JoinEntries(entries[1..]);
      Between(k + x, ",", b, "}", q);
      Regroup(k, x, "," + (b + "}" + q));
      Regroup(Quote(entries[0].key), ":", x + ("," + (b + "}" + q)));
    }
  }

  lemma MemberIsRead(m: Member, r: string)
    requires ReadsBack(m.value) && Stops(r)
    ensures ReadMember(Quote(m.key) + (":" + (Text(m.value) + r))) == Some(Read(SortedMember(m), r))
  {
    var rest := ":" + (Text(m.value) + r);
    AfterQuote(m.key, rest);
    QuotedIsRead(m.key, rest);
    assert rest[1..] == Text(m.value) + r;
  }

  lemma LastMember(t: string, m: Member, end: string)
    requires ReadMember(t) == Some(Read(m, "}" + end))
    ensures ReadMembers(t) == Some(Read([m], end))
  {
    assert ("}" + end)[0] == '}' && ("}" + end)[1..] == end;
  }

  lemma NextMember(t: string, m: Member, rest: string, more: seq<Member>, end: string)
    requires ReadMember(t) == Some(Read(m, "," + rest)) && ReadMembers(rest) == Some(Read(more, end))
    ensures ReadMembers(t) == Some(Read([m] + more, end))
  {
    assert ("," + rest)[0] == ',' && ("," + rest)[1..] == rest;
  }

  lemma {:induction false} MembersAreRead(ms: seq<Member>, r: string)
    requires ms != [] && forall i :: 0 <= i < |ms| ==> ReadsBack(ms[i].value)
    ensures ReadMembers(JoinEntries(Entries(ms)) + "}" + r) == Some(Read(SortKeysOfMembers(ms), r))
    decreases |ms|
  {
    var text, after := JoinEntries(Entries(ms)) + "}" + r, AfterFirstEntry(Entries(ms), r);
    JoinEntriesHead(Entries(ms), r);
    MemberIsRead(ms[0], after);
    assert Entries(ms)[1..] == Entries(ms[1..]);
    if |ms| == 1 {
      LastMember(text, SortedMember(ms[0]), r);
      assert SortKeysOfMembers(ms) == [SortedMember(ms[0])];
    } else {
      MembersAreRead(ms[1..], r);
      NextMember(text, SortedMember(ms[0]), JoinEntries(Entries(ms[1..])) + "}" + r, SortKeysOfMembers(ms[1..]), r);
      assert SortKeysOfMembers(ms) == [SortedMember(ms[0])] + SortKeysOfMembers(ms[1..]);
    }
  }

  lemma ObjectIsRead(ms: seq<Member>, r: string)
    requires forall i :: 0 <= i < |ms| ==> ReadsBack(ms[i].value)
    ensures ReadValue(Text(Object(ms)) + r) == Some(Read(SortKeys(Object(ms)), r))
  {
    SortedReadBack(ms);
    ObjectText(ms);
    ObjectSorted(ms);
    SortedObjectIsRead(SortMembers(ms), r);
  }

  lemma ObjectText(ms: seq<Member>)
    ensures Text(Object(ms)) == "{" + JoinEntries(Entries(SortMembers(ms))) + "}"
  {
    SortingCommutes(ms);
    TextOfObject(ms);
  }

  lemma TextOfObject(ms: seq<Member>)
    ensures Text(Object(ms)) == "{" + JoinEntries(SortedEntries(ms)) + "}"
  {
  }

  lemma ObjectSorted(ms: seq<Member>)
    ensures SortKeys(Object(ms)) == Object(SortKeysOfMembers(SortMembers(ms)))
  {
    SortingCommutes(ms);
    SortKeysOfObject(ms);
  }

  lemma SortKeysOfObject(ms: seq<Member>)
    ensures SortKeys(Object(ms)) == Object(Sort(SortKeysOfMembers(ms), MemberKey, StringLe))
  {
  }

  lemma SortedReadBack(ms: seq<Member>)
    requires forall i :: 0 <= i < |ms| ==> ReadsBack(ms[i].value)
    ensures forall i :: 0 <= i < |SortMembers(ms)| ==> ReadsBack(SortMembers(ms)[i].value)
  {
    forall i | 0 <= i < |SortMembers(ms)| ensures ReadsBack(SortMembers(ms)[i].value) {
      SameElements(SortMembers(ms), ms, SortMembers(ms)[i]);
    }
  }

  lemma SortedObjectIsRead(sorted: seq<Member>, r: string)
    requires forall i :: 0 <= i < |sorted| ==> ReadsBack(sorted[i].value)
    ensures ReadValue("{" + JoinEntries(Entries(sorted)) + "}" + r) == Some(Read(Object(SortKeysOfMembers(sorted)), r))
  {
    var entries := JoinEntries(Entries(sorted));
    Regroup("{", entries, "}");
    Regroup("{", entries + "}", r);
    ObjectByHead(entries + "}" + r);
    InsideIsRead(sorted, r);
  }

  lemma InsideIsRead(sorted: seq<Member>, r: string)
    requires forall i :: 0 <= i < |sorted| ==> ReadsBack(sorted[i].value)
    ensures ReadObject(JoinEntries(Entries(sorted)) + "}" + r) == Some(Read(Object(SortKeysOfMembers(sorted)), r))
  {
    var inside := JoinEntries(Entries(sorted)) + "}" + r;
    if sorted == [] {
      assert inside == "}" + r && inside[1..] == r;
    } else {
      JoinEntriesHead(Entries(sorted), r);
      assert inside[0] == '\"';
      MembersAreRead(sorted, r);
    }
  }

  /** The text of a value is read back as the value with its keys in order, wherever it stands. */
  lemma {:induction false} TextIsRead(v: Json)
    requires NoLoneUndefined(v)
    ensures ReadsBack(v)
    decreases v
  {
    match v {
      case Array(items) =>
        forall i | 0 <= i < |items| ensures ReadsBack(items[i]) {
          TextIsRead(items[i]);
        }
      case Object(ms) =>
        forall i | 0 <= i < |ms| ensures ReadsBack(ms[i].value) {
          TextIsRead(ms[i].value);
        }
      case _ =>
    }
    forall r | Stops(r) ensures ReadValue(Text(v) + r) == Some(Read(SortKeys(v), r)) {
      match v {
        case Number(t) => NumberIsRead(t, r);
        case String(s) => StringIsRead(s, r);
        case Array(items) => ArrayIsRead(items, r);
        case Object(ms) => ObjectIsRead(ms, r);
        case _ => WordIsRead(v, r);
      }
    }
  }

  // --- Equal texts mean equal values ---

  lemma SortedMemberIsThere(ms: seq<Member>, m: Member) returns (i: nat)
    requires m in Sort(SortKeysOfMembers(ms), MemberKey, StringLe)
    ensures i < |ms| && m == SortedMember(ms[i])
  {
    SameElements(Sort(SortKeysOfMembers(ms), MemberKey, StringLe), SortKeysOfMembers(ms), m);
    i :| 0 <= i < |ms| && SortKeysOfMembers(ms)[i] == m;
  }

  lemma MemberIsSorted(ms: seq<Member>, i: nat)
    requires i < |ms|
    ensures SortedMember(ms[i]) in Sort(SortKeysOfMembers(ms), MemberKey, StringLe)
  {
    assert SortKeysOfMembers(ms)[i] == SortedMember(ms[i]);
    SameElements(Sort(SortKeysOfMembers(ms), MemberKey, StringLe), SortKeysOfMembers(ms), SortedMember(ms[i]));
  }

  lemma KeysCarryOver(ms: seq<Member>, ns: seq<Member>)
    requires SortKeys(Object(ms)) == SortKeys(Object(ns))
    ensures Keys(ms) <= Keys(ns)
  {
    forall i | 0 <= i < |ms| ensures ms[i].key in Keys(ns) {
      MemberIsSorted(ms, i);
      var j := SortedMemberIsThere(ns, SortedMember(ms[i]));
      assert ns[j] in ns;
    }
  }

  lemma SameKeySameValue(ms: seq<Member>, ns: seq<Member>, i: nat, j: nat)
    requires DistinctKeys(ns) && SortKeys(Object(ms)) == SortKeys(Object(ns))
    requires i < |ms| && j < |ns| && ms[i].key == ns[j].key
    ensures SortKeys(ms[i].value) == SortKeys(ns[j].value)
  {
    MemberIsSorted(ms, i);
    var k := SortedMemberIsThere(ns, SortedMember(ms[i]));
    assert k == j;
  }

  lemma {:induction false} SortedAlike(v: Json, w: Json)
    requires Valid(v) && Valid(w) && SortKeys(v) == SortKeys(w)
    ensures EqualUpToKeyOrder(v, w)
    decreases v
  {
    match v {
      case Array(xs) =>
        forall i | 0 <= i < |xs| ensures EqualUpToKeyOrder(xs[i], w.items[i]) {
          assert SortKeysOfItems(xs)[i] == SortKeysOfItems(w.items)[i];
          SortedAlike(xs[i], w.items[i]);
        }
      case Object(ms) =>
        var ns := w.members;
        KeysCarryOver(ms, ns);
        KeysCarryOver(ns, ms);
        forall i, j | 0 <= i < |ms| && 0 <= j < |ns| && ms[i].key == ns[j].key
          ensures EqualUpToKeyOrder(ms[i].value, ns[j].value)
        {
          SameKeySameValue(ms, ns, i, j);
          SortedAlike(ms[i].value, ns[j].value);
        }
      case _ =>
    }
  }

  lemma TextDeterminesValue(v: Json, w: Json)
    requires Valid(v) && Valid(w) && NoLoneUndefined(v) && NoLoneUndefined(w) && Text(v) == Text(w)
    ensures EqualUpToKeyOrder(v, w)
  {
    TextIsRead(v);
    TextIsRead(w);
    assert Stops("") && Text(v) + "" == Text(v) && Text(w) + "" == Text(w);
    SortedAlike(v, w);
  }

  // --- Equal values have equal texts ---

  lemma {:induction false} EqualValuesPrintAlike(v: Json, w: Json)
    requires Valid(v) && Valid(w) && EqualUpToKeyOrder(v, w)
    ensures Text(v) == Text(w) && (v.Undefined? <==> w.Undefined?)
    decreases v
  {
    match v {
      case Array(xs) =>
        forall i | 0 <= i < |xs| ensures ItemText(xs[i]) == ItemText(w.items[i]) {
          EqualValuesPrintAlike(xs[i], w.items[i]);
        }
        JoinItemsAlike(xs, w.items);
      case Object(ms) =>
        var ns := w.members;
        forall i, j | 0 <= i < |ms| && 0 <= j < |ns| && ms[i].key == ns[j].key
          ensures Text(ms[i].value) == Text(ns[j].value)
        {
          EqualValuesPrintAlike(ms[i].value, ns[j].value);
        }
        SortedEntriesAlike(ms, ns);
      case _ =>
    }
  }

  lemma {:induction false} JoinItemsAlike(xs: seq<Json>, ys: seq<Json>)
    requires |xs| == |ys| && forall i :: 0 <= i < |xs| ==> ItemText(xs[i]) == ItemText(ys[i])
    ensures JoinItems(xs) == JoinItems(ys)
  {
    if |xs| > 1 {
      JoinItemsAlike(xs[1..], ys[1..]);
    }
  }

  lemma EntryCarriesOver(ms: seq<Member>, ns: seq<Member>, x: Entry)
    requires Keys(ms) == Keys(ns) && x in Entries(ms)
    requires forall i, j :: 0 <= i < |ms| && 0 <= j < |ns| && ms[i].key == ns[j].key ==> Text(ms[i].value) == Text(ns[j].value)
    ensures x in Entries(ns)
  {
    var i :| 0 <= i < |ms| && Entries(ms)[i] == x;
    assert ms[i] in ms;
    assert x.key in Keys(ns);
    var j :| 0 <= j < |ns| && ns[j].key == x.key;
    assert Entries(ns)[j] == x;
  }

  lemma SortedEntriesAlike(ms: seq<Member>, ns: seq<Member>)
    requires DistinctKeys(ms) && DistinctKeys(ns) && Keys(ms) == Keys(ns)
    requires forall i, j :: 0 <= i < |ms| && 0 <= j < |ns| && ms[i].key == ns[j].key ==> Text(ms[i].value) == Text(ns[j].value)
    ensures SortedEntries(ms) == SortedEntries(ns)
  {
    var s, t := Entries(ms), Entries(ns);
    forall x ensures x in s <==> x in t {
      if x in s {
        EntryCarriesOver(ms, ns, x);
      }
      if x in t {
        EntryCarriesOver(ns, ms, x);
      }
    }
    DistinctSameElements(s, t);
    StringLeIsTotal();
    SortForgetsOrder(s, t, KeyOf, StringLe);
  }

  // --- The theorem ---

  /** Reads an array that holds nothing but one `undefined` as empty, at every depth. */
  function Normalize(v: Json): Json {
    match v
    case Array(items) => if items == [Undefined] then Array([]) else Array(NormalizeItems(items))
    case Object(members) => Object(NormalizeMembers(members))
    case _ => v
  }

  function NormalizeItems(items: seq<Json>): (r: seq<Json>)
    ensures |r| == |items| && forall i :: 0 <= i < |r| ==> r[i] == Normalize(items[i])
  {
    if items == [] then [] else [Normalize(items[0])] + NormalizeItems(items[1..])
  }

  function NormalizeMembers(members: seq<Member>): (r: seq<Member>)
    ensures |r| == |members| && forall i :: 0 <= i < |r| ==> r[i] == Member(members[i].key, Normalize(members[i].value))
  {
    if members == [] then []
    else [Member(members[0].key, Normalize(members[0].value))] + NormalizeMembers(members[1..])
  }

  lemma {:induction false} NormalizeIsSound(v: Json)
    ensures NoLoneUndefined(Normalize(v))
    ensures Valid(v) ==> Valid(Normalize(v))
    ensures NoLoneUndefined(v) <==> Normalize(v) == v
    ensures Normalize(v).Undefined? <==> v.Undefined?
    decreases v
  {
    match v {
      case Array(items) =>
        forall i | 0 <= i < |items| {
          NormalizeIsSound(items[i]);
        }
        if |items| == 1 && items != [Undefined] {
          assert NormalizeItems(items)[0] == Normalize(items[0]);
        }
      case Object(members) =>
        forall i | 0 <= i < |members| {
          NormalizeIsSound(members[i].value);
        }
      case _ =>
    }
  }

  lemma {:induction false} NormalizeKeepsText(v: Json)
    ensures Text(Normalize(v)) == Text(v)
    decreases v
  {
    match v {
      case Array(items) =>
        if items != [Undefined] {
          forall i | 0 <= i < |items| ensures ItemText(NormalizeItems(items)[i]) == ItemText(items[i]) {
            NormalizeKeepsText(items[i]);
            NormalizeIsSound(items[i]);
          }
          JoinItemsAlike(NormalizeItems(items), items);
        } else {
          assert JoinItems(items) == JoinItems([]);
        }
      case Object(members) =>
        forall i | 0 <= i < |members| {
          NormalizeKeepsText(members[i].value);
        }
        assert Entries(NormalizeMembers(members)) == Entries(members);
      case _ =>
    }
  }

  /** In every object the keys stand in the order of their code units. */
  ghost predicate KeysAscend(v: Json) {
    match v
    case Array(items) => forall i :: 0 <= i < |items| ==> KeysAscend(items[i])
    case Object(members) =>
      && (forall i, j :: 0 <= i < j < |members| ==> members[i].key != members[j].key && ComesFirst(Units(members[i].key), Units(members[j].key)))
      && forall i :: 0 <= i < |members| ==> KeysAscend(members[i].value)
    case _ => true
  }

  lemma MembersAscend(ms: seq<Member>)
    requires DistinctKeys(ms)
    ensures var r := Sort(SortKeysOfMembers(ms), MemberKey, StringLe);
      forall i, j :: 0 <= i < j < |r| ==> r[i].key != r[j].key && ComesFirst(Units(r[i].key), Units(r[j].key))
  {
    var q := SortKeysOfMembers(ms);
    var r := Sort(q, MemberKey, StringLe);
    StringLeIsTotal();
    SortIsSorted(q, MemberKey, StringLe);
    SortKeepsDistinctKeys(q, MemberKey, StringLe);
    forall i, j | 0 <= i < j < |r| ensures r[i].key != r[j].key && ComesFirst(Units(r[i].key), Units(r[j].key)) {
      assert StringLe(MemberKey(r[i]), MemberKey(r[j])) && MemberKey(r[i]) != MemberKey(r[j]);
      StringLeExactlyWhen(r[i].key, r[j].key);
    }
  }

  /** With the keys in order, a value is the same up to their order. */
  lemma {:induction false} SortKeysIsSound(v: Json)
    requires Valid(v)
    ensures KeysAscend(SortKeys(v)) && EqualUpToKeyOrder(SortKeys(v), v)
    decreases v
  {
    match v {
      case Array(items) =>
        forall i | 0 <= i < |items| ensures KeysAscend(SortKeysOfItems(items)[i]) && EqualUpToKeyOrder(SortKeysOfItems(items)[i], items[i]) {
          SortKeysIsSound(items[i]);
        }
      case Object(ms) =>
        forall i | 0 <= i < |ms| ensures KeysAscend(SortKeys(ms[i].value)) && EqualUpToKeyOrder(SortKeys(ms[i].value), ms[i].value) {
          SortKeysIsSound(ms[i].value);
        }
        MembersAscend(ms);
        SortedObjectIsEqual(ms);
      case _ =>
    }
  }

  lemma SortedObjectIsEqual(ms: seq<Member>)
    requires DistinctKeys(ms)
    requires forall i :: 0 <= i < |ms| ==> KeysAscend(SortKeys(ms[i].value)) && EqualUpToKeyOrder(SortKeys(ms[i].value), ms[i].value)
    ensures var r := Sort(SortKeysOfMembers(ms), MemberKey, StringLe);
      && Keys(r) == Keys(ms)
      && (forall i :: 0 <= i < |r| ==> KeysAscend(r[i].value))
      && forall i, j :: 0 <= i < |r| && 0 <= j < |ms| && r[i].key == ms[j].key ==> EqualUpToKeyOrder(r[i].value, ms[j].value)
  {
    var r := Sort(SortKeysOfMembers(ms), MemberKey, StringLe);
    forall i | 0 <= i < |r|
      ensures r[i].key in Keys(ms) && KeysAscend(r[i].value)
      ensures forall j :: 0 <= j < |ms| && r[i].key == ms[j].key ==> EqualUpToKeyOrder(r[i].value, ms[j].value)
    {
      var k := SortedMemberIsThere(ms, r[i]);
      assert ms[k] in ms;
    }
    forall j | 0 <= j < |ms| ensures ms[j].key in Keys(r) {
      MemberIsSorted(ms, j);
    }
  }

  /** The text is JSON for the value: a reader gets the value back, up to the order of its keys, with
      the keys of every object in the order of their code units, and nothing is left. */
  lemma TextReadsBack(v: Json) returns (w: Json)
    requires Valid(v)
    ensures ReadValue(Text(v)) == Some(Read(w, ""))
    ensures KeysAscend(w) && EqualUpToKeyOrder(w, Normalize(v))
  {
    NormalizeIsSound(v);
    NormalizeKeepsText(v);
    w := SortKeys(Normalize(v));
    SortKeysIsSound(Normalize(v));
    TextIsRead(Normalize(v));
    assert Stops("") && Text(v) + "" == Text(v);
  }

  /** Two values have the same canonical text exactly when they are equal up to the order of
      object keys, where an array with a single `undefined` counts as empty. */
  lemma CanonicalJsonIsExact(v: Json, w: Json)
    requires Valid(v) && Valid(w)
    ensures CanonicalJson(v) == CanonicalJson(w) <==> EqualUpToKeyOrder(Normalize(v), Normalize(w))
  {
    NormalizeIsSound(v);
    NormalizeIsSound(w);
    NormalizeKeepsText(v);
    NormalizeKeepsText(w);
    if EqualUpToKeyOrder(Normalize(v), Normalize(w)) {
      EqualValuesPrintAlike(Normalize(v), Normalize(w));
    } else if CanonicalJson(v) == CanonicalJson(w) && !v.Undefined? {
      TextDeterminesValue(Normalize(v), Normalize(w));
    }
  }

  /** In particular the text is injective up to key order on values without such arrays. */
  lemma CanonicalJsonIsInjective(v: Json, w: Json)
    requires Valid(v) && Valid(w) && NoLoneUndefined(v) && NoLoneUndefined(w)
    ensures CanonicalJson(v) == CanonicalJson(w) <==> EqualUpToKeyOrder(v, w)
  {
    NormalizeIsSound(v);
    NormalizeIsSound(w);
    CanonicalJsonIsExact(v, w);
  }

  /** Only `undefined` has no text; and digits, also after a minus sign, are numbers. */
  lemma WhatHasText(v: Json, digits: string)
    requires digits != "" && forall i :: 0 <= i < |digits| ==> '0' <= digits[i] <= '9'
    ensures CanonicalJson(v).None? <==> v.Undefined?
    ensures IsNumberText(digits) && IsNumberText("-" + digits)
  {
    assert forall i :: 1 <= i <= |digits| ==> ("-" + digits)[i] == digits[i - 1];
  }

  /** `[undefined]` and `[]` print alike. */
  lemma LoneUndefinedCollides()
    ensures CanonicalJson(Array([Undefined])) == CanonicalJson(Array([]))
    ensures !EqualUpToKeyOrder(Array([Undefined]), Array([]))
  {
  }
}
