/** The command-line parser (src/cli-args.ts).

    A token list is read as a list of items, up to an optional `--` terminator
    and the tokens after it. Reading and printing are proved to be inverse to
    each other, and the parsing loop is proved to compute what the items mean. */
module CliArgs {
  import opened Options

  const TERMINATOR := "--"

  predicate StartsWithDashes(token: string) {
    |token| >= 2 && token[0] == '-' && token[1] == '-'
  }

  // --- The result ---

  /** The value of a flag: `true` for a boolean flag, the text otherwise. */
  datatype FlagValue = On | Text(text: string)

  datatype Write = Write(name: string, value: FlagValue)

  /** A map that remembers the order in which its keys were first set. */
  datatype FlagMap = FlagMap(order: seq<string>, values: map<string, FlagValue>) {
    function Set(w: Write): FlagMap {
      FlagMap(if w.name in values then order else order + [w.name], values[w.name := w.value])
    }
  }

  datatype ParseError = TakesNoValue(flag: string) | RequiresValue(flag: string)

  datatype ParsedCliArgs = ParsedCliArgs(positionals: seq<string>, flags: FlagMap, errors: seq<ParseError>)

  // --- The grammar ---

  datatype Item =
    | Plain(token: string)
    | Attached(name: string, value: string)          // --name=value
    | AttachedToSwitch(name: string, value: string)  // --switch=value, an error
    | Switch(name: string)                           // --switch
    | ValueAfterSwitch(name: string, value: string)  // --switch value, an error that takes the value along
    | Spaced(name: string, value: string)            // --name value
    | Missing(name: string)                          // --name without a value, an error

  /** The items before the terminator, and what follows the terminator if there is one. */
  datatype Reading = Reading(items: seq<Item>, rest: Option<seq<string>>)

  function Tokens(item: Item): (t: seq<string>)
    ensures t != []
  {
    match item
    case Plain(token) => [token]
    case Attached(name, value) => [name + "=" + value]
    case AttachedToSwitch(name, value) => [name + "=" + value]
    case Switch(name) => [name]
    case ValueAfterSwitch(name, value) => [name, value]
    case Spaced(name, value) => [name, value]
    case Missing(name) => [name]
  }

  function Print(r: Reading): seq<string>
    decreases |r.items|
  {
    if r.items != [] then Tokens(r.items[0]) + Print(Reading(r.items[1..], r.rest))
    else match r.rest
         case None => []
         case Some(rest) => [TERMINATOR] + rest
  }

  // --- What the items mean ---

  function Positionals(items: seq<Item>): seq<string> {
    if items == [] then [] else
    Positionals(items[..|items|-1]) +
    match items[|items|-1]
    case Plain(token) => [token]
    case _ => []
  }

  function Writes(items: seq<Item>): seq<Write> {
    if items == [] then [] else
    Writes(items[..|items|-1]) +
    match items[|items|-1]
    case Attached(name, value) => [Write(name, Text(value))]
    case Spaced(name, value) => [Write(name, Text(value))]
    case Switch(name) => [Write(name, On)]
    case _ => []
  }

  function Errors(items: seq<Item>): seq<ParseError> {
    if items == [] then [] else
    Errors(items[..|items|-1]) +
    match items[|items|-1]
    case AttachedToSwitch(name, _) => [TakesNoValue(name)]
    case ValueAfterSwitch(name, _) => [TakesNoValue(name)]
    case Missing(name) => [RequiresValue(name)]
    case _ => []
  }

  function Apply(writes: seq<Write>): FlagMap {
    if writes == [] then FlagMap([], map[]) else Apply(writes[..|writes|-1]).Set(writes[|writes|-1])
  }

  function Meaning(r: Reading): ParsedCliArgs {
    ParsedCliArgs(
      Positionals(r.items) + (if r.rest.Some? then r.rest.value else []),
      Apply(Writes(r.items)),
      Errors(r.items))
  }

  function IndexOf(s: string, c: char): (i: nat)
    ensures i <= |s| && forall k :: 0 <= k < i ==> s[k] != c
    ensures i < |s| ==> s[i] == c
  {
    if s == "" || s[0] == c then 0 else 1 + IndexOf(s[1..], c)
  }

  lemma AttachedSplits(name: string, value: string)
    requires '=' !in name
    ensures var token := name + "=" + value; IndexOf(token, '=') == |name| && token[..|name|] == name && token[|name|+1..] == value
  {
    var token := name + "=" + value;
    assert token[|name|] == '=' && forall k :: 0 <= k < |name| ==> token[k] == name[k];
  }

  lemma NoEqualsSign(token: string)
    requires '=' !in token
    ensures IndexOf(token, '=') == |token|
  {
  }

  /** What one item adds to the result. */
  function Effect(item: Item, p: ParsedCliArgs): ParsedCliArgs {
    match item
    case Plain(token) => p.(positionals := p.positionals + [token])
    case Attached(name, value) => p.(flags := p.flags.Set(Write(name, Text(value))))
    case Spaced(name, value) => p.(flags := p.flags.Set(Write(name, Text(value))))
    case Switch(name) => p.(flags := p.flags.Set(Write(name, On)))
    case AttachedToSwitch(name, _) => p.(errors := p.errors + [TakesNoValue(name)])
    case ValueAfterSwitch(name, _) => p.(errors := p.errors + [TakesNoValue(name)])
    case Missing(name) => p.(errors := p.errors + [RequiresValue(name)])
  }

  lemma MeaningOneMore(done: seq<Item>, item: Item)
    ensures Meaning(Reading(done + [item], None)) == Effect(item, Meaning(Reading(done, None)))
  {
    assert (done + [item])[..|done|] == done;
    var w := Writes(done);
    assert w + [] == w && forall x: Write :: (w + [x])[..|w|] == w;
  }

  predicate IsError(item: Item) {
    item.AttachedToSwitch? || item.ValueAfterSwitch? || item.Missing?
  }

  lemma {:induction false} ErrorsAreTheErrorItems(items: seq<Item>)
    ensures Errors(items) == [] <==> forall item :: item in items ==> !IsError(item)
  {
    if items != [] {
      var front, last := items[..|items|-1], items[|items|-1];
      ErrorsAreTheErrorItems(front);
      assert Errors(items) == [] <==> Errors(front) == [] && !IsError(last);
      assert forall item :: item in items <==> item in front || item == last;
    }
  }

  predicate IsLastWrite(writes: seq<Write>, k: int, name: string) {
    0 <= k < |writes| && writes[k].name == name && forall l :: k < l < |writes| ==> writes[l].name != name
  }

  /** The flag `a` is written before any write to the flag `b`. */
  predicate IsWrittenBefore(writes: seq<Write>, a: string, b: string) {
    exists k :: 0 <= k < |writes| && writes[k].name == a && forall l :: 0 <= l <= k ==> writes[l].name != b
  }

  /** After writes to a flag, the last one holds; flags are listed in the order first set. */
  lemma {:induction false} LastWriteWins(writes: seq<Write>, name: string)
    ensures name in Apply(writes).values <==> exists w :: w in writes && w.name == name
    ensures forall k :: IsLastWrite(writes, k, name) ==>
      name in Apply(writes).values && Apply(writes).values[name] == writes[k].value
    ensures name in Apply(writes).order <==> name in Apply(writes).values
  {
    if writes != [] {
      var front := writes[..|writes|-1];
      LastWriteWins(front, name);
      assert writes == front + [writes[|front|]];
      forall k | IsLastWrite(writes, k, name)
        ensures name in Apply(writes).values && Apply(writes).values[name] == writes[k].value
      {
        if k < |front| {
          assert IsLastWrite(front, k, name) && writes[|front|].name != name;
        }
      }
    }
  }

  /** Two flags are listed in the order of their first writes. */
  lemma {:induction false} ListedInOrderOfFirstWrite(writes: seq<Write>, i: nat, j: nat)
    requires i < j < |Apply(writes).order|
    ensures Apply(writes).order[i] != Apply(writes).order[j]
    ensures IsWrittenBefore(writes, Apply(writes).order[i], Apply(writes).order[j])
  {
    var front, last := writes[..|writes|-1], writes[|writes|-1];
    var a, b := Apply(writes).order[i], Apply(writes).order[j];
    LastWriteWins(front, a);
    LastWriteWins(front, b);
    if j < |Apply(front).order| {
      ListedInOrderOfFirstWrite(front, i, j);
      var k :| 0 <= k < |front| && front[k].name == a && forall l :: 0 <= l <= k ==> front[l].name != b;
      assert writes[k].name == a && forall l :: 0 <= l <= k ==> writes[l] == front[l];
    } else {
      assert a in Apply(front).order && b == last.name && b !in Apply(front).values;
      var w :| w in front && w.name == a;
      var k :| 0 <= k < |front| && front[k] == w;
      assert writes[k].name == a;
      assert forall l :: 0 <= l < |front| ==> front[l] in front && front[l].name != b;
      assert forall l :: 0 <= l <= k ==> writes[l] == front[l];
    }
  }

  // --- What a reading means, item by item ---

  /** `ks` are the places of the wanted items, in order. */
  ghost predicate AreThePlaces(ks: seq<int>, items: seq<Item>, wanted: Item -> bool) {
    && (forall i :: 0 <= i < |ks| ==> 0 <= ks[i] < |items| && wanted(items[ks[i]]))
    && (forall i, j :: 0 <= i < j < |ks| ==> ks[i] < ks[j])
    && (forall k :: 0 <= k < |items| && wanted(items[k]) ==> k in ks)
  }

  lemma OneMorePlace(ks: seq<int>, items: seq<Item>, wanted: Item -> bool)
    requires items != [] && AreThePlaces(ks, items[..|items|-1], wanted)
    ensures wanted(items[|items|-1]) ==> AreThePlaces(ks + [|items| - 1], items, wanted)
    ensures !wanted(items[|items|-1]) ==> AreThePlaces(ks, items, wanted)
  {
    var n := |items| - 1;
    var front := items[..n];
    forall i | 0 <= i < |ks| ensures 0 <= ks[i] < n && wanted(items[ks[i]]) {
      assert front[ks[i]] == items[ks[i]];
    }
    forall k | 0 <= k < n && wanted(items[k]) ensures k in ks && k in ks + [n] {
      assert front[k] == items[k];
    }
    assert (ks + [n])[|ks|] == n;
  }

  predicate IsPlain(item: Item) { item.Plain? }

  lemma {:induction false} PlainItems(items: seq<Item>) returns (ks: seq<int>)
    ensures AreThePlaces(ks, items, IsPlain) && |ks| == |Positionals(items)|
    ensures forall i :: 0 <= i < |ks| ==> items[ks[i]] == Plain(Positionals(items)[i])
  {
    ks := [];
    if items != [] {
      var front, last := items[..|items|-1], items[|items|-1];
      ks := PlainItems(front);
      OneMorePlace(ks, items, IsPlain);
      assert forall i :: 0 <= i < |ks| ==> front[ks[i]] == items[ks[i]];
      if last.Plain? {
        ks := ks + [|items| - 1];
      }
    }
  }

  /** The positionals are the tokens of the plain items, in order, and then what follows the terminator. */
  lemma PositionalsAreThePlainTokens(r: Reading) returns (ks: seq<int>)
    ensures AreThePlaces(ks, r.items, IsPlain)
    ensures var p := Meaning(r).positionals;
      && |ks| <= |p| && p[|ks|..] == (if r.rest.Some? then r.rest.value else [])
      && forall i :: 0 <= i < |ks| ==> r.items[ks[i]] == Plain(p[i])
  {
    ks := PlainItems(r.items);
  }

  /** The error of an item that is one. */
  ghost predicate IsErrorOf(item: Item, e: ParseError) {
    || (item.Missing? && e == RequiresValue(item.name))
    || ((item.AttachedToSwitch? || item.ValueAfterSwitch?) && e == TakesNoValue(item.name))
  }

  lemma {:induction false} ErroneousItems(items: seq<Item>) returns (ks: seq<int>)
    ensures AreThePlaces(ks, items, IsError) && |ks| == |Errors(items)|
    ensures forall i :: 0 <= i < |ks| ==> IsErrorOf(items[ks[i]], Errors(items)[i])
  {
    ks := [];
    if items != [] {
      var front, last := items[..|items|-1], items[|items|-1];
      ks := ErroneousItems(front);
      OneMorePlace(ks, items, IsError);
      assert forall i :: 0 <= i < |ks| ==> front[ks[i]] == items[ks[i]];
      if IsError(last) {
        ks := ks + [|items| - 1];
      }
    }
  }

  /** Each erroneous item is reported, in order: a missing value, or a value that a switch does not take. */
  lemma ErrorsAreThoseOfItems(r: Reading) returns (ks: seq<int>)
    ensures AreThePlaces(ks, r.items, IsError) && |ks| == |Meaning(r).errors|
    ensures forall i :: 0 <= i < |ks| ==> IsErrorOf(r.items[ks[i]], Meaning(r).errors[i])
    ensures forall item :: IsError(item) <==> item.Missing? || item.AttachedToSwitch? || item.ValueAfterSwitch?
  {
    ks := ErroneousItems(r.items);
  }

  /** The item gives the flag this value. */
  ghost predicate Gives(item: Item, name: string, value: FlagValue) {
    match item
    case Switch(n) => n == name && value == On
    case Attached(n, v) => n == name && value == Text(v)
    case Spaced(n, v) => n == name && value == Text(v)
    case _ => false
  }

  ghost predicate GivesSome(item: Item, name: string) {
    exists value :: Gives(item, name, value)
  }

  /** The k-th item is the last one that gives the flag a value. */
  ghost predicate GivesLast(items: seq<Item>, k: int, name: string, value: FlagValue) {
    0 <= k < |items| && Gives(items[k], name, value) && forall l :: k < l < |items| ==> !GivesSome(items[l], name)
  }

  lemma EffectOnFlags(item: Item, p: ParsedCliArgs, name: string)
    ensures var before, after := p.flags.values, Effect(item, p).flags.values;
      && (forall value :: Gives(item, name, value) ==> name in after && after[name] == value)
      && (!GivesSome(item, name) ==> (name in after <==> name in before) && (name in before ==> after[name] == before[name]))
  {
    match item
    case Switch(n) => assert Gives(item, n, On);
    case Attached(n, v) => assert Gives(item, n, Text(v));
    case Spaced(n, v) => assert Gives(item, n, Text(v));
    case _ =>
  }

  ghost predicate IsGiven(items: seq<Item>, name: string, value: FlagValue) {
    exists k :: GivesLast(items, k, name, value)
  }

  lemma GivenOneMore(items: seq<Item>, name: string, value: FlagValue)
    requires items != []
    ensures IsGiven(items, name, value) <==>
      if GivesSome(items[|items|-1], name) then Gives(items[|items|-1], name, value) else IsGiven(items[..|items|-1], name, value)
  {
    var n := |items| - 1;
    var front := items[..n];
    assert forall k :: 0 <= k < n ==> items[k] == front[k];
    if Gives(items[n], name, value) {
      assert GivesLast(items, n, name, value);
    }
    if !GivesSome(items[n], name) {
      forall k ensures GivesLast(items, k, name, value) <==> GivesLast(front, k, name, value) {
      }
    }
  }

  /** A flag has the value that the last item that sets it gives: the text after the equals sign or
      the next token, and `true` for a switch. */
  lemma {:induction false} FlagsAreTheLastGiven(items: seq<Item>, name: string, value: FlagValue)
    ensures var flags := Meaning(Reading(items, None)).flags.values;
      name in flags && flags[name] == value <==> IsGiven(items, name, value)
  {
    if items != [] {
      var front, last := items[..|items|-1], items[|items|-1];
      FlagsAreTheLastGiven(front, name, value);
      MeaningOneMore(front, last);
      assert front + [last] == items;
      EffectOnFlags(last, Meaning(Reading(front, None)), name);
      GivenOneMore(items, name, value);
    }
  }

  lemma {:induction false} TerminatorIsAToken(r: Reading)
    requires r.rest.Some?
    ensures TERMINATOR in Print(r)
    decreases |r.items|
  {
    if r.items != [] {
      TerminatorIsAToken(Reading(r.items[1..], r.rest));
    }
  }

  /** A boolean flag is a dashed name other than the terminator, without an equals sign. */
  predicate IsSwitchName(name: string) {
    StartsWithDashes(name) && |name| > 2 && '=' !in name
  }

  /** The parser, for a set of boolean flags. */
  datatype Parser = Parser(booleans: set<string>) {

    ghost predicate Valid() {
      forall name :: name in booleans ==> IsSwitchName(name)
    }

    // --- The grammar ---

    predicate IsValueFlag(name: string) {
      StartsWithDashes(name) && '=' !in name && name !in booleans
    }

    /** Whether `item` may stand in front of the tokens `next`. */
    predicate Fits(item: Item, next: seq<string>) {
      match item
      case Plain(token) => !StartsWithDashes(token)
      case Attached(name, _) => IsValueFlag(name)
      case AttachedToSwitch(name, _) => name in booleans
      case Switch(name) => name in booleans && (next == [] || next[0] == "" || StartsWithDashes(next[0]))
      case ValueAfterSwitch(name, value) => name in booleans && value != "" && !StartsWithDashes(value)
      case Spaced(name, value) => IsValueFlag(name) && name != TERMINATOR && !StartsWithDashes(value)
      case Missing(name) => IsValueFlag(name) && name != TERMINATOR && (next == [] || StartsWithDashes(next[0]))
    }

    predicate WellFormed(r: Reading)
      decreases |r.items|
    {
      r.items == [] ||
      var tail := Reading(r.items[1..], r.rest);
      Fits(r.items[0], Print(tail)) && WellFormed(tail)
    }

    // --- Reading tokens ---

    function FirstItem(tokens: seq<string>): Item
      requires tokens != [] && tokens[0] != TERMINATOR
    {
      var token, next := tokens[0], tokens[1..];
      var eq := IndexOf(token, '=');
      if !StartsWithDashes(token) then Plain(token)
      else if eq < |token| then
        var name, value := token[..eq], token[eq+1..];
        if name in booleans then AttachedToSwitch(name, value) else Attached(name, value)
      else if token in booleans then
        if next != [] && next[0] != "" && !StartsWithDashes(next[0])
        then ValueAfterSwitch(token, next[0])
        else Switch(token)
      else if next == [] || StartsWithDashes(next[0]) then Missing(token)
      else Spaced(token, next[0])
    }

    function Read(tokens: seq<string>): Reading {
      if tokens == [] then Reading([], None)
      else if tokens[0] == TERMINATOR then Reading([], Some(tokens[1..]))
      else
        var item := FirstItem(tokens);
        var tail := Read(tokens[|Tokens(item)|..]);
        Reading([item] + tail.items, tail.rest)
    }

    // --- Reading and printing are inverse ---

    /** A switch is a dashed name other than the terminator, without an equals sign. */
    lemma SwitchNames(name: string)
      requires Valid() && name in booleans
      ensures StartsWithDashes(name) && name != TERMINATOR && '=' !in name
    {
    }

    /** The first item of a printed line is the item that was printed. */
    lemma FirstItemOfPrint(item: Item, next: seq<string>)
      requires Valid() && Fits(item, next)
      ensures Tokens(item)[0] != TERMINATOR && FirstItem(Tokens(item) + next) == item
    {
      var tokens := Tokens(item) + next;
      match item {
        case Plain(_) =>
        case Attached(name, value) => AttachedSplits(name, value);
        case AttachedToSwitch(name, value) => SwitchNames(name); AttachedSplits(name, value);
        case Switch(name) => SwitchNames(name); NoEqualsSign(name); assert tokens[1..] == next;
        case ValueAfterSwitch(name, value) => SwitchNames(name); NoEqualsSign(name);
        case Spaced(name, value) => NoEqualsSign(name);
        case Missing(name) => NoEqualsSign(name); assert tokens[1..] == next;
      }
    }

    /** Every printed line reads back as the items it was printed from. */
    lemma {:induction false} ReadUndoesPrint(r: Reading)
      requires Valid() && WellFormed(r)
      ensures Read(Print(r)) == r
      decreases |r.items|
    {
      if r.items == [] {
        if r.rest.Some? {
          assert Print(r)[1..] == r.rest.value;
        }
      } else {
        var item, tail := r.items[0], Reading(r.items[1..], r.rest);
        ReadUndoesPrint(tail);
        FirstItemOfPrint(item, Print(tail));
        assert Print(r) == Tokens(item) + Print(tail);
        assert Print(r)[|Tokens(item)|..] == Print(tail);
      }
    }

    lemma FirstItemFits(tokens: seq<string>)
      requires tokens != [] && tokens[0] != TERMINATOR
      ensures var item := FirstItem(tokens);
        && |Tokens(item)| <= |tokens|
        && tokens == Tokens(item) + tokens[|Tokens(item)|..]
        && Fits(item, tokens[|Tokens(item)|..])
    {
      var token := tokens[0];
      var eq := IndexOf(token, '=');
      if eq < |token| {
        assert token == token[..eq] + "=" + token[eq+1..];
      } else {
        assert token[..eq] == token;
      }
      assert tokens == [token] + tokens[1..];
      if |tokens| > 1 {
        assert tokens == [token, tokens[1]] + tokens[2..];
      }
    }

    /** Every token list has a well-formed reading, and printing it gives the tokens back. */
    lemma {:induction false} PrintUndoesRead(tokens: seq<string>)
      ensures WellFormed(Read(tokens)) && Print(Read(tokens)) == tokens
      decreases |tokens|
    {
      if tokens == [] || tokens[0] == TERMINATOR {
      } else {
        var item := FirstItem(tokens);
        FirstItemFits(tokens);
        PrintUndoesRead(tokens[|Tokens(item)|..]);
        var tail := Read(tokens[|Tokens(item)|..]);
        assert Read(tokens).items[1..] == tail.items;
      }
    }

    // --- The parsing loop ---

    /** What the loop knows in front of token `i`: the tokens read as the items `done`, then
        either the reading of what is left, or (once terminated) the tokens from `start` on;
        and `p` is the meaning of what has been taken. */
    ghost predicate LoopState(tokens: seq<string>, terminated: bool, done: seq<Item>, start: nat, i: nat, p: ParsedCliArgs) {
      start <= i <= |tokens| &&
      if terminated then
        && Read(tokens) == Reading(done, Some(tokens[start..]))
        && p == Meaning(Reading(done, Some(tokens[start..i])))
      else
        var tail := Read(tokens[i..]);
        && Read(tokens) == Reading(done + tail.items, tail.rest)
        && p == Meaning(Reading(done, None))
    }

    lemma LoopStart(tokens: seq<string>)
      ensures LoopState(tokens, false, [], 0, 0, ParsedCliArgs([], FlagMap([], map[]), []))
    {
      assert tokens[0..] == tokens;
    }

    lemma LoopEnd(tokens: seq<string>, terminated: bool, done: seq<Item>, start: nat, p: ParsedCliArgs)
      requires LoopState(tokens, terminated, done, start, |tokens|, p)
      ensures p == Meaning(Read(tokens))
    {
      assert tokens[start..|tokens|] == tokens[start..] && done + [] == done;
    }

    lemma LoopTerminator(tokens: seq<string>, done: seq<Item>, start: nat, i: nat, p: ParsedCliArgs)
      requires i < |tokens| && tokens[i] == TERMINATOR && LoopState(tokens, false, done, start, i, p)
      ensures LoopState(tokens, true, done, i + 1, i + 1, p)
    {
      assert tokens[i..][1..] == tokens[i+1..] && done + [] == done;
    }

    lemma LoopRest(tokens: seq<string>, done: seq<Item>, start: nat, i: nat, p: ParsedCliArgs)
      requires i < |tokens| && LoopState(tokens, true, done, start, i, p)
      ensures LoopState(tokens, true, done, start, i + 1, p.(positionals := p.positionals + [tokens[i]]))
    {
      assert tokens[start..i+1] == tokens[start..i] + [tokens[i]];
    }

    lemma LoopItem(tokens: seq<string>, done: seq<Item>, start: nat, i: nat, p: ParsedCliArgs)
      requires i < |tokens| && tokens[i] != TERMINATOR && LoopState(tokens, false, done, start, i, p)
      ensures var item := FirstItem(tokens[i..]);
        LoopState(tokens, false, done + [item], start, i + |Tokens(item)|, Effect(item, p))
    {
      var item := FirstItem(tokens[i..]);
      FirstItemFits(tokens[i..]);
      assert tokens[i..][|Tokens(item)|..] == tokens[i + |Tokens(item)|..];
      var tail := Read(tokens[i + |Tokens(item)|..]);
      assert done + ([item] + tail.items) == (done + [item]) + tail.items;
      MeaningOneMore(done, item);
    }

    /** The token at `i` starts with dashes and is not the terminator: take one flag. */
    method TakeFlag(tokens: seq<string>, i: nat, p: ParsedCliArgs) returns (q: ParsedCliArgs, i': nat)
      requires i < |tokens| && tokens[i] != TERMINATOR && StartsWithDashes(tokens[i])
      ensures var item := FirstItem(tokens[i..]);
        i' == i + |Tokens(item)| <= |tokens| && q == Effect(item, p)
    {
      q, i' := p, i + 1;
      var token := tokens[i];
      assert tokens[i..][0] == token && tokens[i..][1..] == tokens[i+1..];
      var eq := IndexOf(token, '=');
      if eq < |token| {
        var name, value := token[..eq], token[eq+1..];
        if name in booleans {
          q := q.(errors := q.errors + [TakesNoValue(name)]);
          return;
        }
        q := q.(flags := q.flags.Set(Write(name, Text(value))));
        return;
      }
      var next := if i + 1 < |tokens| then Some(tokens[i+1]) else None;
      if token in booleans {
        if next.Some? && next.value != "" && next.value != "--" && !StartsWithDashes(next.value) {
          q := q.(errors := q.errors + [TakesNoValue(token)]);
          i' := i + 2;
          return;
        }
        q := q.(flags := q.flags.Set(Write(token, On)));
        return;
      }
      if next.None? || next.value == "--" || StartsWithDashes(next.value) {
        q := q.(errors := q.errors + [RequiresValue(token)]);
        return;
      }
      q := q.(flags := q.flags.Set(Write(token, Text(next.value))));
      i' := i + 2;
    }

    /** The token at `i` is not the terminator: take it, and its value if it has one. */
    method TakeToken(tokens: seq<string>, i: nat, p: ParsedCliArgs) returns (q: ParsedCliArgs, i': nat)
      requires i < |tokens| && tokens[i] != TERMINATOR
      ensures var item := FirstItem(tokens[i..]);
        i' == i + |Tokens(item)| <= |tokens| && q == Effect(item, p)
    {
      if !StartsWithDashes(tokens[i]) {
        q, i' := p.(positionals := p.positionals + [tokens[i]]), i + 1;
      } else {
        q, i' := TakeFlag(tokens, i, p);
      }
    }

    method ParseTokens(tokens: seq<string>) returns (p: ParsedCliArgs)
      ensures p == Meaning(Read(tokens))
    {
      p := ParsedCliArgs([], FlagMap([], map[]), []);
      var optionsTerminated := false;
      var i: nat := 0;
      ghost var done: seq<Item> := [];
      ghost var start: nat := 0;
      LoopStart(tokens);
      while i < |tokens|
        invariant LoopState(tokens, optionsTerminated, done, start, i, p)
        decreases |tokens| - i
      {
        if !optionsTerminated && tokens[i] == "--" {
          LoopTerminator(tokens, done, start, i, p);
          optionsTerminated := true;
          i := i + 1;
          start := i;
        } else if optionsTerminated {
          LoopRest(tokens, done, start, i, p);
          p := p.(positionals := p.positionals + [tokens[i]]);
          i := i + 1;
        } else {
          ghost var item := FirstItem(tokens[i..]);
          LoopItem(tokens, done, start, i, p);
          p, i := TakeToken(tokens, i, p);
          done := done + [item];
        }
      }
      LoopEnd(tokens, optionsTerminated, done, start, p);
    }

    /** The first two elements of `argv` are the runtime and the script. */
    method ParseCliArgs(argv: seq<string>) returns (result: ParsedCliArgs)
      ensures result == Meaning(Read(if |argv| < 2 then [] else argv[2..]))
    {
      result := ParseTokens(if |argv| < 2 then [] else argv[2..]);
    }

    // --- What parsing guarantees ---

    /** Parsing reports no error exactly when the tokens are the print of positionals, valued
        flags and switches, with no switch in front of a non-empty positional. */
    lemma ErrorFreeLines(tokens: seq<string>)
      requires Valid()
      ensures Meaning(Read(tokens)).errors == [] <==>
        exists r :: WellFormed(r) && Print(r) == tokens && forall item :: item in r.items ==> !IsError(item)
    {
      PrintUndoesRead(tokens);
      ErrorsAreTheErrorItems(Read(tokens).items);
      if r :| WellFormed(r) && Print(r) == tokens && forall item :: item in r.items ==> !IsError(item) {
        ReadUndoesPrint(r);
      }
    }

    // --- Lines of one and two tokens ---

    ghost function One(name: string, value: FlagValue): ParsedCliArgs {
      ParsedCliArgs([], FlagMap([name], map[name := value]), [])
    }

    lemma MeaningOfOne(item: Item)
      ensures Meaning(Reading([item], None)) == Effect(item, ParsedCliArgs([], FlagMap([], map[]), []))
    {
      MeaningOneMore([], item);
      assert [] + [item] == [item];
    }

    /** A flag with an equals sign has its value from it; a switch must not have one. */
    lemma AttachedLine(name: string, value: string)
      requires Valid() && StartsWithDashes(name) && '=' !in name
      ensures Meaning(Read([name + "=" + value])) ==
        if name in booleans then ParsedCliArgs([], FlagMap([], map[]), [TakesNoValue(name)]) else One(name, Text(value))
    {
      var item := if name in booleans then AttachedToSwitch(name, value) else Attached(name, value);
      ReadUndoesPrint(Reading([item], None));
      assert Print(Reading([item], None)) == [name + "=" + value];
      MeaningOfOne(item);
    }

    /** A flag on its own is a switch, or lacks its value. */
    lemma SingleLine(name: string)
      requires Valid() && StartsWithDashes(name) && '=' !in name && name != TERMINATOR
      ensures Meaning(Read([name])) ==
        if name in booleans then One(name, On) else ParsedCliArgs([], FlagMap([], map[]), [RequiresValue(name)])
    {
      var item := if name in booleans then Switch(name) else Missing(name);
      ReadUndoesPrint(Reading([item], None));
      assert Print(Reading([item], None)) == [name];
      MeaningOfOne(item);
    }

    /** A plain token after a flag is its value. A switch takes the token along as an error, unless
        the token is empty: then it is a positional. */
    lemma SpacedLine(name: string, value: string)
      requires Valid() && StartsWithDashes(name) && '=' !in name && name != TERMINATOR && !StartsWithDashes(value)
      ensures Meaning(Read([name, value])) ==
        if name !in booleans then One(name, Text(value))
        else if value != "" then ParsedCliArgs([], FlagMap([], map[]), [TakesNoValue(name)])
        else One(name, On).(positionals := [""])
    {
      if name in booleans && value == "" {
        EmptyAfterSwitch(name);
      } else {
        var item := if name in booleans then ValueAfterSwitch(name, value) else Spaced(name, value);
        ReadUndoesPrint(Reading([item], None));
        assert Print(Reading([item], None)) == [name, value];
        MeaningOfOne(item);
      }
    }

    lemma EmptyAfterSwitch(name: string)
      requires Valid() && name in booleans
      ensures Meaning(Read([name, ""])) == One(name, On).(positionals := [""])
    {
      var items := [Switch(name), Plain("")];
      SwitchThenEmpty(name);
      ReadUndoesPrint(Reading(items, None));
      MeaningOfOne(Switch(name));
      MeaningOneMore([Switch(name)], Plain(""));
      assert [Switch(name)] + [Plain("")] == items;
    }

    lemma SwitchThenEmpty(name: string)
      requires name in booleans
      ensures var r := Reading([Switch(name), Plain("")], None); WellFormed(r) && Print(r) == [name, ""]
    {
      var tail := Reading([Plain("")], None);
      assert [Switch(name), Plain("")][1..] == [Plain("")];
      assert [Plain("")][1..] == [];
      assert Print(tail) == [""] && WellFormed(tail);
      assert [name] + [""] == [name, ""];
    }

    /** A flag is no value of another one. */
    lemma FlagAfterFlag(name: string, next: string)
      requires Valid() && StartsWithDashes(name) && '=' !in name && name != TERMINATOR && StartsWithDashes(next) && next != TERMINATOR
      ensures Read([name, next]).items[0] == if name in booleans then Switch(name) else Missing(name)
    {
      assert [name, next][1..] == [next];
      NoEqualsSign(name);
    }

    // --- Words ---

    function Plains(words: seq<string>): (items: seq<Item>)
      ensures |items| == |words| && forall i :: 0 <= i < |words| ==> items[i] == Plain(words[i])
    {
      if words == [] then [] else [Plain(words[0])] + Plains(words[1..])
    }

    lemma {:induction false} PlainsPrint(words: seq<string>)
      requires forall i :: 0 <= i < |words| ==> !StartsWithDashes(words[i])
      ensures var r := Reading(Plains(words), None); WellFormed(r) && Print(r) == words
    {
      if words != [] {
        PlainsPrint(words[1..]);
        assert Plains(words)[1..] == Plains(words[1..]);
        assert words == [words[0]] + words[1..];
      }
    }

    lemma {:induction false} PlainsMean(items: seq<Item>)
      requires forall i :: 0 <= i < |items| ==> items[i].Plain?
      ensures var m := Meaning(Reading(items, None));
        && |m.positionals| == |items| && m.flags == FlagMap([], map[]) && m.errors == []
        && forall i :: 0 <= i < |items| ==> items[i] == Plain(m.positionals[i])
    {
      if items != [] {
        PlainsMean(items[..|items|-1]);
        MeaningOneMore(items[..|items|-1], items[|items|-1]);
        assert items[..|items|-1] + [items[|items|-1]] == items;
      }
    }

    /** A line without dashes is its own positionals. */
    lemma WordsParseToThemselves(words: seq<string>)
      requires Valid() && forall i :: 0 <= i < |words| ==> !StartsWithDashes(words[i])
      ensures Meaning(Read(words)) == ParsedCliArgs(words, FlagMap([], map[]), [])
    {
      PlainsPrint(words);
      ReadUndoesPrint(Reading(Plains(words), None));
      PlainsMean(Plains(words));
      assert Meaning(Read(words)).positionals == words;
    }

    /** A flag with its value as a caller may write it: attached, spaced, or a switch. */
    predicate IsOption(item: Item) {
      (item.Attached? || item.Spaced? || item.Switch?) && Fits(item, [])
    }

    lemma {:induction false} OptionsAreWellFormed(options: seq<Item>, rest: seq<string>)
      requires Valid() && forall item :: item in options ==> IsOption(item)
      ensures var r := Reading(options, Some(rest)); WellFormed(r) && StartsWithDashes(Print(r)[0])
    {
      if options != [] {
        OptionsAreWellFormed(options[1..], rest);
        assert options[0] in options;
        if options[0].Switch? {
          SwitchNames(options[0].name);
        }
      }
    }

    lemma {:induction false} OptionsHaveNoPositionals(options: seq<Item>)
      requires forall item :: item in options ==> IsOption(item)
      ensures Positionals(options) == [] && Errors(options) == [] && |Writes(options)| == |options|
    {
      if options != [] {
        assert options[|options|-1] in options;
        OptionsHaveNoPositionals(options[..|options|-1]);
      }
    }

    /** Flags printed in any form, then the terminator, then the positionals, parse back
        exactly: every flag is set in order and every positional is kept verbatim. */
    lemma PrintedOptionsParseBack(options: seq<Item>, positionals: seq<string>)
      requires Valid() && forall item :: item in options ==> IsOption(item)
      ensures Meaning(Read(Print(Reading(options, Some(positionals))))) ==
        ParsedCliArgs(positionals, Apply(Writes(options)), [])
    {
      OptionsAreWellFormed(options, positionals);
      ReadUndoesPrint(Reading(options, Some(positionals)));
      OptionsHaveNoPositionals(options);
    }

    lemma {:induction false} TerminatorFits(items: seq<Item>, rest: seq<string>)
      requires WellFormed(Reading(items, None))
      ensures WellFormed(Reading(items, Some(rest)))
      ensures Print(Reading(items, Some(rest))) == Print(Reading(items, None)) + [TERMINATOR] + rest
    {
      if items != [] {
        var short, long := Print(Reading(items[1..], None)), Print(Reading(items[1..], Some(rest)));
        TerminatorFits(items[1..], rest);
        assert Fits(items[0], short);
        assert short == [] ==> long[0] == TERMINATOR;
        assert short != [] ==> long[0] == short[0];
        assert Fits(items[0], long);
        assert Tokens(items[0]) + long == (Tokens(items[0]) + short) + [TERMINATOR] + rest;
      }
    }

    /** The first `--` always terminates: it is never taken as a value, what precedes it means
        what it means on its own, and what follows it is kept verbatim as positionals. */
    lemma FirstTerminatorEndsOptions(pre: seq<string>, post: seq<string>)
      requires Valid() && TERMINATOR !in pre
      ensures var alone := Meaning(Read(pre));
        Meaning(Read(pre + [TERMINATOR] + post)) == alone.(positionals := alone.positionals + post)
    {
      var r := Read(pre);
      PrintUndoesRead(pre);
      assert r.rest.None? by {
        if r.rest.Some? {
          TerminatorIsAToken(r);
        }
      }
      var s := Reading(r.items, Some(post));
      TerminatorFits(r.items, post);
      assert Read(pre + [TERMINATOR] + post) == s by {
        ReadUndoesPrint(s);
      }
      assert Positionals(r.items) + [] == Positionals(r.items);
    }
  }

  /** The parser of the program. */
  const RENTEMESTER := Parser({
    "--force", "--help", "--example", "--json", "--sign-with-ed25519", "--archive",
    "--enrich-cvr", "--include-archived", "--ixbrl-taxonomy", "--after-retention-expiry",
    "--no-vat", "--no-open"
  })

  lemma RentemesterIsValid()
    ensures RENTEMESTER.Valid()
  {
    forall name | name in RENTEMESTER.booleans
      ensures IsSwitchName(name)
    {
    }
  }
}
