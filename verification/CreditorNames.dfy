/** What the text judgements of the agent run mean, in terms of the texts themselves
    (src/agent/loop.ts): which currencies are kroner, and which bank lines name which creditor. */
module CreditorNames {
  import opened Options
  import opened PayableMatching
  import opened Utf16

  // --- Trimming and upper case ---

  ghost predicate IsBlank(m: Matcher, s: string) {
    forall i :: 0 <= i < |s| ==> m.isSpace(s[i])
  }

  ghost predicate IsTight(m: Matcher, s: string) {
    s != "" ==> !m.isSpace(s[0]) && !m.isSpace(s[|s|-1])
  }

  /** `s` is `core` with blanks around it. */
  ghost predicate IsPadded(m: Matcher, s: string, before: string, core: string, after: string) {
    s == before + core + after && IsBlank(m, before) && IsBlank(m, after)
  }

  lemma {:induction false} TrimStartLeaves(m: Matcher, s: string) returns (before: string)
    ensures s == before + m.TrimStart(s) && IsBlank(m, before)
    ensures m.TrimStart(s) != "" ==> !m.isSpace(m.TrimStart(s)[0])
  {
    before := "";
    if s != "" && m.isSpace(s[0]) {
      var rest := TrimStartLeaves(m, s[1..]);
      before := [s[0]] + rest;
      assert s == [s[0]] + s[1..];
    }
  }

  lemma {:induction false} TrimEndLeaves(m: Matcher, s: string) returns (after: string)
    ensures s == m.TrimEnd(s) + after && IsBlank(m, after)
    ensures m.TrimEnd(s) != "" ==> !m.isSpace(m.TrimEnd(s)[|m.TrimEnd(s)|-1])
  {
    after := "";
    if s != "" && m.isSpace(s[|s|-1]) {
      var rest := TrimEndLeaves(m, s[..|s|-1]);
      after := rest + [s[|s|-1]];
      assert s == s[..|s|-1] + [s[|s|-1]];
    }
  }

  /** Trimming leaves the text without the blanks around it. */
  lemma TrimmedIsCore(m: Matcher, s: string) returns (before: string, after: string)
    ensures IsPadded(m, s, before, m.Trim(s), after) && IsTight(m, m.Trim(s))
  {
    before := TrimStartLeaves(m, s);
    var rest := m.TrimStart(s);
    after := TrimEndLeaves(m, rest);
    assert s == before + m.Trim(s) + after;
    assert m.Trim(s) != "" ==> m.Trim(s)[0] == rest[0];
  }

  lemma PadIsShort(m: Matcher, s: string, a: string, x: string, b: string, c: string, y: string, d: string)
    requires IsPadded(m, s, a, x, b) && IsPadded(m, s, c, y, d) && x != "" && IsTight(m, x)
    ensures |c| <= |a| && |d| <= |b|
  {
    assert s[|a|] == x[0] && s[|s| - |b| - 1] == x[|x|-1];
    assert forall k :: 0 <= k < |c| ==> s[k] == c[k];
    assert forall k :: |s| - |d| <= k < |s| ==> s[k] == d[k - (|s| - |d|)];
  }

  /** There is one way to take the blanks off a text that is not blank. */
  lemma CoreIsUnique(m: Matcher, s: string, a: string, x: string, b: string, c: string, y: string, d: string)
    requires IsPadded(m, s, a, x, b) && IsPadded(m, s, c, y, d) && IsTight(m, x) && IsTight(m, y) && x != "" && y != ""
    ensures x == y
  {
    PadIsShort(m, s, a, x, b, c, y, d);
    PadIsShort(m, s, c, y, d, a, x, b);
    assert x == s[|a|..|s| - |b|] && y == s[|c|..|s| - |d|];
  }

  /** Kroner: no currency is given, or it spells DKK in upper case, with any blanks around it. */
  ghost predicate IsKroner(m: Matcher, currency: Option<string>) {
    currency.None? || exists a, core, b :: IsPadded(m, currency.value, a, core, b) && m.Upper(core) == "DKK"
  }

  /** The capital letters of DKK are their own upper case, and no white space. */
  ghost predicate KnowsKroner(m: Matcher) {
    m.Valid() && m.upper('D') == "D" && m.upper('K') == "K" && !m.isSpace('D') && !m.isSpace('K')
  }

  lemma UpperOfDkk(m: Matcher)
    requires KnowsKroner(m)
    ensures m.Upper("DKK") == "DKK"
  {
    m.UpperOfJoin("D", "K");
    m.UpperOfJoin("DK", "K");
    UpperOfOne(m, 'D');
    UpperOfOne(m, 'K');
    assert "D" + "K" == "DK" && "DK" + "K" == "DKK";
  }

  lemma BlankEndsStay(m: Matcher, s: string)
    requires m.Valid() && s != ""
    ensures var u := m.Upper(s);
      && (m.isSpace(s[0]) ==> u != "" && u[0] == s[0])
      && (m.isSpace(s[|s|-1]) ==> u != "" && u[|u|-1] == s[|s|-1])
  {
    var first, last := s[0], s[|s|-1];
    assert s == [first] + s[1..] && s == s[..|s|-1] + [last];
    m.UpperOfJoin([first], s[1..]);
    m.UpperOfJoin(s[..|s|-1], [last]);
    UpperOfOne(m, first);
    UpperOfOne(m, last);
  }

  /** A text that spells DKK neither begins nor ends with a blank. */
  lemma KronerIsTight(m: Matcher, core: string)
    requires KnowsKroner(m) && m.Upper(core) == "DKK"
    ensures core != "" && IsTight(m, core)
  {
    if core != "" {
      BlankEndsStay(m, core);
    }
  }

  lemma IsDkkExactlyWhen(m: Matcher, currency: Option<string>)
    requires KnowsKroner(m)
    ensures m.IsDkk(currency) <==> IsKroner(m, currency)
  {
    var s := GetOr(currency, "DKK");
    var before, after := TrimmedIsCore(m, s);
    if currency.None? {
      UpperOfDkk(m);
      KronerIsTight(m, "DKK");
      assert IsPadded(m, s, "", "DKK", "");
      CoreIsUnique(m, s, before, m.Trim(s), after, "", "DKK", "") by {
        NotBlank(m, s, "", "DKK", "");
      }
    } else if a, core, b :| IsPadded(m, currency.value, a, core, b) && m.Upper(core) == "DKK" {
      KronerIsTight(m, core);
      NotBlank(m, s, a, core, b);
      CoreIsUnique(m, s, before, m.Trim(s), after, a, core, b);
    } else {
      assert IsPadded(m, currency.value, before, m.Trim(s), after);
    }
  }

  lemma NotBlank(m: Matcher, s: string, a: string, core: string, b: string)
    requires IsPadded(m, s, a, core, b) && core != "" && IsTight(m, core)
    ensures m.Trim(s) != ""
  {
    assert s[|a|] == core[0];
    m.TrimKeepsInk(s, |a|);
  }

  // --- The line of a bank transaction ---

  /** A field that says something, with a space behind it. */
  ghost function Padded(m: Matcher, field: Option<string>): string {
    if field.None? || IsBlank(m, field.value) then "" else field.value + " "
  }

  /** The text of a bank line: its text, counterparty, reference and message, as far as they say
      something, with one space between any two. */
  ghost predicate IsLine(m: Matcher, bank: BankLine, line: string) {
    Padded(m, bank.text) + Padded(m, bank.counterpartyName) + Padded(m, bank.reference) + Padded(m, bank.message)
      == line + if line == "" then "" else " "
  }

  lemma PresentMeans(m: Matcher, field: Option<string>)
    ensures m.IsPresent(field) <==> field.Some? && !IsBlank(m, field.value)
  {
    if field.Some? {
      var before, after := TrimmedIsCore(m, field.value);
      if i :| 0 <= i < |field.value| && !m.isSpace(field.value[i]) {
        m.TrimKeepsInk(field.value, i);
      }
      if m.Trim(field.value) != "" {
        assert field.value[|before|] == m.Trim(field.value)[0];
      }
    }
  }

  ghost function AllPadded(m: Matcher, fields: seq<Option<string>>): string {
    if fields == [] then "" else Padded(m, fields[0]) + AllPadded(m, fields[1..])
  }

  lemma {:induction false} JoinIsPadded(m: Matcher, fields: seq<Option<string>>)
    ensures var line := Join(m.Present(fields)); AllPadded(m, fields) == line + if line == "" then "" else " "
    ensures Join(m.Present(fields)) == "" <==> m.Present(fields) == []
  {
    if fields != [] {
      JoinIsPadded(m, fields[1..]);
      PresentMeans(m, fields[0]);
      var rest := m.Present(fields[1..]);
      if m.IsPresent(fields[0]) {
        assert m.Present(fields) == [fields[0].value] + rest && m.Present(fields)[1..] == rest;
      } else {
        assert m.Present(fields) == rest;
      }
    }
  }

  lemma PaddedOfFour(m: Matcher, a: Option<string>, b: Option<string>, c: Option<string>, d: Option<string>)
    ensures AllPadded(m, [a, b, c, d]) == Padded(m, a) + Padded(m, b) + Padded(m, c) + Padded(m, d)
  {
    assert [a, b, c, d][1..] == [b, c, d] && [b, c, d][1..] == [c, d] && [c, d][1..] == [d] && [d][1..] == [];
    assert AllPadded(m, [d]) == Padded(m, d);
    assert AllPadded(m, [c, d]) == Padded(m, c) + Padded(m, d);
    assert AllPadded(m, [b, c, d]) == Padded(m, b) + (Padded(m, c) + Padded(m, d));
  }

  lemma CombinedIsLine(m: Matcher, bank: BankLine)
    ensures IsLine(m, bank, m.Combined(bank))
  {
    JoinIsPadded(m, m.Fields(bank));
    PaddedOfFour(m, bank.text, bank.counterpartyName, bank.reference, bank.message);
  }

  lemma LineIsUnique(m: Matcher, bank: BankLine, x: string, y: string)
    requires IsLine(m, bank, x) && IsLine(m, bank, y)
    ensures x == y
  {
    var whole := x + if x == "" then "" else " ";
    if x != "" && y != "" {
      assert x == whole[..|whole|-1] && y == whole[..|whole|-1];
    }
  }

  // --- Naming the creditor ---

  ghost predicate AreWordCharacters(m: Matcher, t: string) {
    forall i :: 0 <= i < |t| ==> m.isWord(t[i])
  }

  ghost predicate IsWordBetween(m: Matcher, a: string, t: string, b: string) {
    t != "" && AreWordCharacters(m, t) && (a != "" ==> !m.isWord(a[|a|-1])) && (b != "" ==> !m.isWord(b[0]))
  }

  /** `t` is a whole word of the text in upper case. */
  ghost predicate HasWord(m: Matcher, text: string, t: string) {
    exists a, b :: m.Upper(text) == a + t + b && IsWordBetween(m, a, t, b)
  }

  /** A word of at least three code units that is no stop word. */
  ghost predicate Identifies(m: Matcher, t: string) {
    |Units(t)| >= 3 && t !in m.stopTokens
  }

  lemma TokenIsWord(m: Matcher, text: string, t: string)
    ensures t in m.Tokens(Some(text)) <==> HasWord(m, text, t) && Identifies(m, t)
  {
    var s := m.Upper(text);
    if t in m.Tokens(Some(text)) {
      assert t != "";
      var i := m.FoundIsPiece(s, t);
      WordAt(m, s, t, i);
    }
    if HasWord(m, text, t) && Identifies(m, t) {
      var a, b :| s == a + t + b && IsWordBetween(m, a, t, b);
      PieceBetween(m, s, a, t, b);
      m.PieceIsFound(s, t, |a|);
    }
  }

  lemma WordAt(m: Matcher, s: string, t: string, i: int)
    requires m.IsPieceAt(s, t, i)
    ensures exists a, b :: s == a + t + b && IsWordBetween(m, a, t, b)
  {
    var a, b := s[..i], s[i + |t|..];
    assert s == a + t + b;
    assert IsWordBetween(m, a, t, b);
  }

  lemma PieceBetween(m: Matcher, s: string, a: string, t: string, b: string)
    requires s == a + t + b && IsWordBetween(m, a, t, b)
    ensures m.IsPieceAt(s, t, |a|)
  {
    assert s[|a|..|a| + |t|] == t;
    assert a != "" ==> s[|a| - 1] == a[|a|-1];
    assert b != "" ==> s[|a| + |t|] == b[0];
  }

  ghost predicate FieldHasWord(m: Matcher, field: Option<string>, t: string) {
    field.Some? && HasWord(m, field.value, t)
  }

  ghost predicate BankHasWord(m: Matcher, bank: BankLine, t: string) {
    || FieldHasWord(m, bank.text, t) || FieldHasWord(m, bank.counterpartyName, t)
    || FieldHasWord(m, bank.reference, t) || FieldHasWord(m, bank.message, t)
  }

  /** Some field of the bank line and the supplier's name share an identifying word. */
  ghost predicate SharesWord(m: Matcher, bank: BankLine, payable: Payable) {
    exists t :: BankHasWord(m, bank, t) && FieldHasWord(m, payable.supplierName, t) && Identifies(m, t)
  }

  /** The bill number stands somewhere in the line, both in upper case. */
  ghost predicate ShowsBill(m: Matcher, bank: BankLine, payable: Payable) {
    && payable.billNo.Some? && payable.billNo.value != ""
    && exists line, a, b :: IsLine(m, bank, line) && m.Upper(line) == a + m.Upper(payable.billNo.value) + b
  }

  lemma ContainsMeans(s: string, x: string)
    ensures Contains(s, x) <==> exists a, b :: s == a + x + b
  {
    if Contains(s, x) {
      var i :| 0 <= i <= |s| && IsAt(s, x, i);
      assert s == s[..i] + x + s[i + |x|..];
    }
    if a, b :| s == a + x + b {
      assert s[|a|..|a| + |x|] == x;
      assert IsAt(s, x, |a|);
    }
  }

  lemma BillExactlyWhen(m: Matcher, bank: BankLine, payable: Payable)
    ensures ShowsBill(m, bank, payable) <==>
      && payable.billNo.Some? && payable.billNo.value != ""
      && Contains(m.Upper(m.Combined(bank)), m.Upper(payable.billNo.value))
  {
    CombinedIsLine(m, bank);
    if payable.billNo.Some? {
      var bill := m.Upper(payable.billNo.value);
      ContainsMeans(m.Upper(m.Combined(bank)), bill);
      if line, a, b :| IsLine(m, bank, line) && m.Upper(line) == a + bill + b {
        LineIsUnique(m, bank, line, m.Combined(bank));
      }
    }
  }

  lemma FieldTokens(m: Matcher, field: Option<string>, t: string)
    requires m.Valid()
    ensures t in m.Tokens(field) <==> FieldHasWord(m, field, t) && Identifies(m, t)
  {
    if field.Some? {
      TokenIsWord(m, field.value, t);
    } else {
      m.SpacesHaveNoTokens("");
      assert m.Tokens(field) == m.Tokens(Some(""));
    }
  }

  lemma BankTokens(m: Matcher, bank: BankLine, t: string)
    requires m.Valid()
    ensures t in m.Tokens(Some(m.Combined(bank))) <==> BankHasWord(m, bank, t) && Identifies(m, t)
  {
    var a, b, c, d := bank.text, bank.counterpartyName, bank.reference, bank.message;
    m.TokensOfJoin(m.Fields(bank));
    assert m.Fields(bank)[1..] == [b, c, d] && [b, c, d][1..] == [c, d] && [c, d][1..] == [d] && [d][1..] == [];
    assert m.AllTokens([d]) == m.Tokens(d);
    assert m.AllTokens([c, d]) == m.Tokens(c) + m.Tokens(d);
    assert m.AllTokens([b, c, d]) == m.Tokens(b) + (m.Tokens(c) + m.Tokens(d));
    FieldTokens(m, a, t);
    FieldTokens(m, b, t);
    FieldTokens(m, c, t);
    FieldTokens(m, d, t);
  }

  /** A bank line names a creditor exactly when it shows the bill number, or shares an identifying
      word with the supplier's name. */
  lemma CorroboratesExactlyWhen(m: Matcher, bank: BankLine, payable: Payable)
    requires m.Valid()
    ensures m.Corroborates(bank, payable) <==> ShowsBill(m, bank, payable) || SharesWord(m, bank, payable)
  {
    BillExactlyWhen(m, bank, payable);
    forall t
      ensures t in m.Tokens(Some(m.Combined(bank))) <==> BankHasWord(m, bank, t) && Identifies(m, t)
      ensures t in m.Tokens(payable.supplierName) <==> FieldHasWord(m, payable.supplierName, t) && Identifies(m, t)
    {
      BankTokens(m, bank, t);
      FieldTokens(m, payable.supplierName, t);
    }
  }

  /** Stop words and words of one or two units never name anybody. */
  lemma OnlyStopWordsNeverName(m: Matcher, bank: BankLine, payable: Payable)
    requires m.Valid() && !ShowsBill(m, bank, payable)
    requires forall t :: BankHasWord(m, bank, t) && FieldHasWord(m, payable.supplierName, t) ==> t in m.stopTokens || |Units(t)| < 3
    ensures !m.Corroborates(bank, payable)
  {
    CorroboratesExactlyWhen(m, bank, payable);
  }
}
