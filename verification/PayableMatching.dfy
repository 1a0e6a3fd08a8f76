/** When a bank line names a creditor (src/agent/loop.ts). */
module PayableMatching {
  import opened Lists
  import opened Options
  import opened Utf16

  /** An open creditor item; the balance is in øre. */
  datatype Payable = Payable(payableId: int, documentId: int, supplierName: Option<string>, billNo: Option<string>, openOre: int)

  /** A bank line; the amount is in øre and negative for money going out. */
  datatype BankLine = BankLine(
    id: int, amountOre: int, currency: Option<string>,
    text: Option<string>, counterpartyName: Option<string>, reference: Option<string>, message: Option<string>)

  // --- Strings ---

  predicate IsAt(s: string, x: string, i: int) {
    0 <= i <= |s| - |x| && s[i..i + |x|] == x
  }

  predicate Contains(s: string, x: string) {
    exists i :: 0 <= i <= |s| && IsAt(s, x, i)
  }

  /** Some space has a character before it and one after it. */
  predicate HasInnerSpace(x: string) {
    exists i :: 0 < i < |x| - 1 && x[i] == ' '
  }

  lemma Widen(a: string, b: string, c: string, x: string)
    requires Contains(b, x)
    ensures Contains(a + b + c, x)
  {
    var i :| 0 <= i <= |b| && IsAt(b, x, i);
    var k := |a| + i;
    assert (a + b + c)[k..k + |x|] == b[i..i + |x|];
    assert IsAt(a + b + c, x, k);
  }

  lemma WidenLeft(a: string, b: string, x: string)
    requires Contains(b, x)
    ensures Contains(a + b, x)
  {
    Widen(a, b, "", x);
    assert a + b + "" == a + b;
  }

  /** A longer pad in front, and more text behind. */
  lemma KeepLead(longer: string, pad: string, a: string, more: string, x: string)
    requires longer == pad || pad == ""
    requires Contains(pad + a, x)
    ensures Contains(longer + a + more, x)
  {
    if longer == pad {
      Widen("", pad + a, more, x);
      assert "" + (pad + a) + more == longer + a + more;
    } else {
      assert pad + a == a;
      Widen(longer, a, more, x);
    }
  }

  lemma OnlySpace(s: string, x: string)
    requires Contains(s, x) && x != "" && (s == "" || s == " ")
    ensures s == " " && x == " "
  {
    var i :| 0 <= i <= |s| && IsAt(s, x, i);
    assert x == s[i..i + |x|];
  }

  /** Looked for at a space, a text without an inner space lies on one side of it, space included. */
  lemma ContainsAtSpace(a: string, b: string, x: string)
    requires !HasInnerSpace(x) && x != "" && Contains(a + " " + b, x)
    ensures Contains(a + " ", x) || Contains(" " + b, x)
  {
    var whole := a + " " + b;
    var i :| 0 <= i <= |whole| && IsAt(whole, x, i);
    assert whole[|a|] == ' ' && x == whole[i..i + |x|];
    assert forall k :: i <= k < i + |x| ==> whole[k] == x[k - i];
    if i + |x| <= |a| + 1 {
      assert (a + " ")[i..i + |x|] == x;
      assert IsAt(a + " ", x, i);
    } else if i >= |a| {
      var k := i - |a|;
      assert (" " + b)[k..k + |x|] == x;
      assert IsAt(" " + b, x, k);
    }
  }

  function Join(parts: seq<string>): string {
    if parts == [] then ""
    else if |parts| == 1 then parts[0]
    else parts[0] + " " + Join(parts[1..])
  }

  function GetOr(s: Option<string>, default: string): string {
    match s
    case None => default
    case Some(v) => v
  }

  /** The character tables of the platform, and the tokens that identify nobody. */
  datatype Matcher = Matcher(upper: char -> string, isWord: char -> bool, isSpace: char -> bool, stopTokens: set<string>) {

    /** White space is its own upper case and belongs to no word. */
    ghost predicate Valid() {
      && isSpace(' ')
      && forall c :: isSpace(c) ==> upper(c) == [c] && !isWord(c)
    }

    /** `toUpperCase`, character by character; a character may become several. */
    function Upper(s: string): string {
      if s == "" then "" else upper(s[0]) + Upper(s[1..])
    }

    function TrimStart(s: string): string {
      if s != "" && isSpace(s[0]) then TrimStart(s[1..]) else s
    }

    function TrimEnd(s: string): string {
      if s != "" && isSpace(s[|s|-1]) then TrimEnd(s[..|s|-1]) else s
    }

    function Trim(s: string): string { TrimEnd(TrimStart(s)) }

    /** A missing currency counts as kroner. */
    predicate IsDkk(currency: Option<string>) {
      Upper(Trim(GetOr(currency, "DKK"))) == "DKK"
    }

    /** The pieces between the runs of characters that belong to no word. */
    function Split(s: string): (r: seq<string>)
      ensures r != []
    {
      if s == "" then [""]
      else if isWord(s[0]) then
        var r := Split(s[1..]);
        [[s[0]] + r[0]] + r[1..]
      else if |s| > 1 && !isWord(s[1]) then Split(s[1..])
      else [""] + Split(s[1..])
    }

    predicate IsIdentifying(token: string) {
      Length(token) >= 3 && token !in stopTokens
    }

    /** The identifying tokens of a name or text. (Trimming a piece changes nothing: it has word characters only.) */
    function Tokens(value: Option<string>): set<string> {
      set t | t in Split(Upper(GetOr(value, ""))) && IsIdentifying(t)
    }

    predicate IsPresent(field: Option<string>) {
      field.Some? && Trim(field.value) != ""
    }

    function Present(fields: seq<Option<string>>): seq<string> {
      if fields == [] then []
      else (if IsPresent(fields[0]) then [fields[0].value] else []) + Present(fields[1..])
    }

    function Fields(bank: BankLine): seq<Option<string>> {
      [bank.text, bank.counterpartyName, bank.reference, bank.message]
    }

    function Combined(bank: BankLine): string {
      Join(Present(Fields(bank)))
    }

    predicate Corroborates(bank: BankLine, payable: Payable) {
      var combined := Combined(bank);
      if payable.billNo.Some? && payable.billNo.value != "" && Contains(Upper(combined), Upper(payable.billNo.value)) then true
      else
        var supplierTokens := Tokens(payable.supplierName);
        supplierTokens != {} && exists t :: t in Tokens(Some(combined)) && t in supplierTokens
    }

    // --- The tokens of a joined line are the tokens of its fields ---

    lemma {:induction false} UpperOfJoin(a: string, b: string)
      requires Valid()
      ensures Upper(a + b) == Upper(a) + Upper(b)
      ensures Upper(" ") == " "
    {
      if a == "" {
        assert a + b == b;
      } else {
        UpperOfJoin(a[1..], b);
        assert (a + b)[1..] == a[1..] + b;
      }
    }

    lemma {:induction false} SplitAfterSeparator(s: string)
      requires s != "" && !isWord(s[0])
      ensures Split(s)[0] == ""
    {
      if |s| > 1 && !isWord(s[1]) {
        SplitAfterSeparator(s[1..]);
      }
    }

    /** A word is one piece. */
    lemma {:induction false} SplitOfWord(s: string)
      requires forall i :: 0 <= i < |s| ==> isWord(s[i])
      ensures Split(s) == [s]
    {
      if s != "" {
        SplitOfWord(s[1..]);
        assert s == [s[0]] + s[1..];
      }
    }

    /** Words do not run across a separator. */
    lemma {:induction false} SplitAtSeparator(a: string, c: char, b: string, t: string)
      requires !isWord(c) && t != ""
      ensures Split(a + [c] + b)[0] == Split(a)[0]
      ensures t in Split(a + [c] + b)[1..] <==> t in Split(a)[1..] || t in Split(b)
    {
      var whole := a + [c] + b;
      if a == "" {
        assert whole[0] == c && whole[1..] == b;
        SplitAfterSeparator(whole);
        if b != "" && !isWord(b[0]) {
          SplitAfterSeparator(b);
        }
        assert Split(b) == [Split(b)[0]] + Split(b)[1..];
      } else {
        var rest, r := Split(a[1..] + [c] + b), Split(a[1..]);
        assert whole[0] == a[0] && whole[1..] == a[1..] + [c] + b;
        SplitAtSeparator(a[1..], c, b, t);
        assert rest == [rest[0]] + rest[1..] && r == [r[0]] + r[1..];
        assert |a| > 1 ==> whole[1] == a[1];
        assert |a| == 1 ==> whole[1] == c;
      }
    }

    /** The tokens of two fields joined by a space are those of the one and of the other. */
    lemma TokensOfTwo(a: string, b: string)
      requires Valid()
      ensures Tokens(Some(a + " " + b)) == Tokens(Some(a)) + Tokens(Some(b))
    {
      UpperOfJoin(a, " ");
      UpperOfJoin(a + " ", b);
      var u, v := Upper(a), Upper(b);
      forall t | IsIdentifying(t) ensures t in Split(u + [' '] + v) <==> t in Split(u) || t in Split(v) {
        SplitAtSeparator(u, ' ', v, t);
        var whole := Split(u + [' '] + v);
        assert whole == [whole[0]] + whole[1..] && Split(u) == [Split(u)[0]] + Split(u)[1..];
      }
    }

    lemma {:induction false} SpacesHaveNoTokens(s: string)
      requires Valid() && forall i :: 0 <= i < |s| ==> isSpace(s[i])
      ensures Tokens(Some(s)) == {}
    {
      SpacesSplitToNothing(s);
    }

    lemma {:induction false} SpacesSplitToNothing(s: string)
      requires Valid() && forall i :: 0 <= i < |s| ==> isSpace(s[i])
      ensures Upper(s) == s && forall t :: t in Split(s) ==> t == ""
    {
      if s != "" {
        SpacesSplitToNothing(s[1..]);
        assert s == [s[0]] + s[1..];
      }
    }

    lemma {:induction false} TrimEndKeepsInk(s: string, i: nat)
      requires i < |s| && !isSpace(s[i])
      ensures TrimEnd(s) != ""
    {
      if isSpace(s[|s|-1]) {
        TrimEndKeepsInk(s[..|s|-1], i);
      }
    }

    lemma {:induction false} TrimKeepsInk(s: string, i: nat)
      requires i < |s| && !isSpace(s[i])
      ensures Trim(s) != ""
    {
      if isSpace(s[0]) {
        TrimKeepsInk(s[1..], i - 1);
      } else {
        TrimEndKeepsInk(s, 0);
      }
    }

    lemma BlankFieldsHaveNoTokens(field: Option<string>)
      requires Valid() && !IsPresent(field)
      ensures Tokens(field) == {}
    {
      var s := GetOr(field, "");
      forall i | 0 <= i < |s| ensures isSpace(s[i]) {
        if !isSpace(s[i]) {
          TrimKeepsInk(s, i);
        }
      }
      SpacesHaveNoTokens(s);
    }

    ghost function AllTokens(fields: seq<Option<string>>): set<string> {
      if fields == [] then {} else Tokens(fields[0]) + AllTokens(fields[1..])
    }

    /** The tokens of the joined line are the tokens of all its fields together. */
    lemma {:induction false} TokensOfJoin(fields: seq<Option<string>>)
      requires Valid()
      ensures Tokens(Some(Join(Present(fields)))) == AllTokens(fields)
    {
      if fields == [] {
        SpacesHaveNoTokens("");
      } else {
        TokensOfJoin(fields[1..]);
        var rest := Present(fields[1..]);
        if !IsPresent(fields[0]) {
          BlankFieldsHaveNoTokens(fields[0]);
          assert Present(fields) == rest;
        } else if rest == [] {
          assert Present(fields) == [fields[0].value];
          SpacesHaveNoTokens("");
        } else {
          assert Present(fields)[1..] == rest;
          TokensOfTwo(fields[0].value, Join(rest));
        }
      }
    }

    // --- The pieces of a text ---

    /** A run of word characters that cannot be extended. */
    ghost predicate IsPieceAt(s: string, t: string, i: int) {
      && t != "" && 0 <= i <= |s| - |t| && s[i..i + |t|] == t
      && (forall k :: 0 <= k < |t| ==> isWord(t[k]))
      && (i > 0 ==> !isWord(s[i - 1])) && (i + |t| < |s| ==> !isWord(s[i + |t|]))
    }

    /** The first piece, which may be empty. */
    lemma {:induction false} FirstPiece(s: string)
      ensures var t := Split(s)[0];
        && |t| <= |s| && s[..|t|] == t && (forall k :: 0 <= k < |t| ==> isWord(t[k]))
        && (|t| < |s| ==> !isWord(s[|t|]))
    {
      if s != "" {
        FirstPiece(s[1..]);
      }
    }

    lemma PieceOneLater(s: string, t: string, i: int)
      requires s != "" && i > 0
      ensures IsPieceAt(s, t, i + 1) <==> IsPieceAt(s[1..], t, i)
    {
      if 0 <= i <= |s[1..]| - |t| {
        assert s[1..][i..i + |t|] == s[i + 1..i + 1 + |t|];
      }
    }

    /** A piece further on, in a text and in what follows its first character. */
    lemma LaterPieces(s: string, t: string)
      requires s != ""
      ensures (exists i :: i > 1 && IsPieceAt(s, t, i)) <==> exists i :: i > 0 && IsPieceAt(s[1..], t, i)
    {
      if i :| i > 1 && IsPieceAt(s, t, i) {
        PieceOneLater(s, t, i - 1);
      }
      if i :| i > 0 && IsPieceAt(s[1..], t, i) {
        PieceOneLater(s, t, i);
      }
    }

    lemma {:induction false} OtherPieces(s: string, t: string)
      requires t != ""
      ensures t in Split(s)[1..] <==> exists i :: i > 0 && IsPieceAt(s, t, i)
    {
      if s != "" {
        var r := Split(s[1..]);
        OtherPieces(s[1..], t);
        LaterPieces(s, t);
        FirstPiece(s[1..]);
        if isWord(s[0]) {
          assert Split(s)[1..] == r[1..];
        } else if |s| > 1 && !isWord(s[1]) {
          if IsPieceAt(s, t, 1) {
            PieceIsWord(s, t, 1);
          }
        } else {
          assert Split(s)[1..] == r && r == [r[0]] + r[1..];
          if t == r[0] {
            assert s[1..][..|t|] == s[1..1 + |t|];
            assert IsPieceAt(s, t, 1);
          }
          if IsPieceAt(s, t, 1) {
            PieceIsFirst(s[1..], t) by {
              assert s[1..][..|t|] == s[1..1 + |t|];
            }
          }
        }
      }
    }

    lemma PieceIsWord(s: string, t: string, i: int)
      requires IsPieceAt(s, t, i)
      ensures i < |s| && isWord(s[i])
    {
      assert t[0] == s[i..i + |t|][0];
    }

    lemma PieceIsFirst(s: string, t: string)
      requires IsPieceAt(s, t, 0)
      ensures Split(s)[0] == t
    {
      FirstPiece(s);
      var first := Split(s)[0];
      assert s[..|t|] == t;
      assert forall k :: 0 <= k < |t| ==> s[k] == t[k];
      assert forall k :: 0 <= k < |first| ==> s[k] == first[k];
    }

    /** A text is split into its pieces. */
    lemma PieceIsFound(s: string, t: string, i: int)
      requires IsPieceAt(s, t, i)
      ensures t in Split(s)
    {
      if i == 0 {
        PieceIsFirst(s, t);
      } else {
        OtherPieces(s, t);
      }
    }

    lemma FoundIsPiece(s: string, t: string) returns (i: int)
      requires t != "" && t in Split(s)
      ensures IsPieceAt(s, t, i)
    {
      var r := Split(s);
      assert r == [r[0]] + r[1..];
      if t == r[0] {
        FirstPiece(s);
        i := 0;
      } else {
        OtherPieces(s, t);
        i :| i > 0 && IsPieceAt(s, t, i);
      }
    }

    /** A piece between two marks, without the mark, is a piece wherever the text stands. */
    lemma PieceIsForced(q: char, x: string, t: string, before: string, after: string)
      requires isWord(q) && q !in t && t != "" && t in Split([q] + x + [q])
      ensures t in Split(before + x + after)
    {
      var marked, whole := [q] + x + [q], before + x + after;
      var i := FoundIsPiece(marked, t);
      assert forall k :: i <= k < i + |t| ==> marked[k] == t[k - i] && marked[k] in t;
      assert marked[0] == q && marked[|x| + 1] == q;
      assert 1 < i && i + |t| <= |x|;
      var j := |before| + i - 1;
      assert whole[j..j + |t|] == marked[i..i + |t|];
      PieceIsFound(whole, t, j);
    }

    // --- Filling a field keeps corroboration ---

    lemma UpperOfSpace(a: string, b: string)
      requires Valid()
      ensures Upper(a + " " + b) == Upper(a) + " " + Upper(b)
    {
      UpperOfJoin(a, " ");
      UpperOfJoin(a + " ", b);
    }

    /** The joined line, with the space in front of it if it follows another field. */
    function Line(lead: bool, fields: seq<Option<string>>): string {
      (if lead then " " else "") + Upper(Join(Present(fields)))
    }

    lemma LineOf(lead: bool, fields: seq<Option<string>>)
      requires Valid() && fields != [] && IsPresent(fields[0])
      ensures Line(lead, fields) ==
        (if lead then " " else "") + Upper(fields[0].value) + if Present(fields[1..]) == [] then "" else Line(true, fields[1..])
    {
      var a, rest := fields[0].value, Present(fields[1..]);
      assert Present(fields) == [a] + rest;
      if rest != [] {
        assert Present(fields)[1..] == rest;
        UpperOfSpace(a, Join(rest));
      }
    }

    lemma AbsentFirst(lead: bool, fields: seq<Option<string>>)
      requires fields != [] && !IsPresent(fields[0])
      ensures Line(lead, fields) == Line(lead, fields[1..]) && Present(fields) == Present(fields[1..])
    {
      assert Present(fields) == Present(fields[1..]);
    }

    ghost predicate Keeps(g: seq<Option<string>>, f: seq<Option<string>>) {
      |f| == |g| && forall i :: 0 <= i < |f| && IsPresent(f[i]) ==> g[i] == f[i]
    }

    lemma {:induction false} KeepsSome(g: seq<Option<string>>, f: seq<Option<string>>)
      requires Keeps(g, f) && Present(f) != []
      ensures Present(g) != []
    {
      if !IsPresent(f[0]) {
        assert Present(f) == Present(f[1..]);
        KeepsSome(g[1..], f[1..]);
      }
    }

    /** What the line contains it still contains when more fields are filled, as long as a space is
        only looked for at the ends: every field keeps the spaces that separate it from others. */
    lemma {:induction false} FillingKeepsContents(g: seq<Option<string>>, f: seq<Option<string>>, leadG: bool, leadF: bool, x: string)
      requires Valid() && Keeps(g, f) && (leadF ==> leadG)
      requires !HasInnerSpace(x) && x != "" && Contains(Line(leadF, f), x)
      ensures Contains(Line(leadG, g), x)
      decreases |f|
    {
      if Present(f) == [] {
        OnlySpace(Line(leadF, f), x);
        Widen("", " ", Upper(Join(Present(g))), x);
        assert "" + " " + Upper(Join(Present(g))) == Line(leadG, g);
      } else if !IsPresent(f[0]) {
        AbsentFirst(leadF, f);
        if IsPresent(g[0]) {
          FillingKeepsContents(g[1..], f[1..], true, leadF, x);
          KeepsSome(g[1..], f[1..]);
          LineOf(leadG, g);
          WidenLeft((if leadG then " " else "") + Upper(g[0].value), Line(true, g[1..]), x);
        } else {
          AbsentFirst(leadG, g);
          FillingKeepsContents(g[1..], f[1..], leadG, leadF, x);
        }
      } else {
        FirstFieldKeeps(g, f, leadG, leadF, x);
      }
    }

    lemma FirstFieldKeeps(g: seq<Option<string>>, f: seq<Option<string>>, leadG: bool, leadF: bool, x: string)
      requires Valid() && Keeps(g, f) && (leadF ==> leadG) && f != [] && IsPresent(f[0])
      requires !HasInnerSpace(x) && x != "" && Contains(Line(leadF, f), x)
      ensures Contains(Line(leadG, g), x)
      decreases |f|, 0
    {
      var a := Upper(f[0].value);
      var padF, padG := if leadF then " " else "", if leadG then " " else "";
      var restF, restG := Present(f[1..]), Present(g[1..]);
      LineOf(leadF, f);
      LineOf(leadG, g);
      if restF == [] {
        KeepLead(padG, padF, a, if restG == [] then "" else Line(true, g[1..]), x);
      } else {
        KeepsSome(g[1..], f[1..]);
        var tailF, tailG := Upper(Join(restF)), Upper(Join(restG));
        Regroup(padF + a, " ", tailF);
        Regroup(padF, a, " ");
        Regroup(padG, a, " ");
        Regroup(padG + a, " ", tailG);
        ContainsAtSpace(padF + a, tailF, x);
        if Contains(padF + a + " ", x) {
          KeepLead(padG, padF, a + " ", tailG, x);
        } else {
          FillingKeepsContents(g[1..], f[1..], true, true, x);
          WidenLeft(padG + a, Line(true, g[1..]), x);
        }
      }
    }

    /** Every field of `bank` that says something is kept in `filled`. */
    ghost predicate Fills(filled: BankLine, bank: BankLine) {
      Keeps(Fields(filled), Fields(bank))
    }

    lemma {:induction false} MoreFieldsMoreTokens(f: seq<Option<string>>, g: seq<Option<string>>)
      requires Valid() && Keeps(g, f)
      ensures AllTokens(f) <= AllTokens(g)
    {
      if f != [] {
        MoreFieldsMoreTokens(f[1..], g[1..]);
        if !IsPresent(f[0]) {
          BlankFieldsHaveNoTokens(f[0]);
        }
      }
    }

    /** Filling empty fields never removes corroboration, when the bill number has no space between
        two other characters. */
    lemma FillingKeepsCorroboration(bank: BankLine, filled: BankLine, payable: Payable)
      requires Valid() && Fills(filled, bank) && Corroborates(bank, payable)
      requires payable.billNo.Some? ==> !HasInnerSpace(Upper(payable.billNo.value))
      ensures Corroborates(filled, payable)
    {
      var f, g := Fields(bank), Fields(filled);
      TokensOfJoin(f);
      TokensOfJoin(g);
      MoreFieldsMoreTokens(f, g);
      if payable.billNo.Some? && Contains(Upper(Combined(bank)), Upper(payable.billNo.value)) {
        var x := Upper(payable.billNo.value);
        if x == "" {
          assert IsAt(Upper(Combined(filled)), x, 0);
        } else {
          assert Line(false, f) == Upper(Combined(bank)) && Line(false, g) == Upper(Combined(filled));
          FillingKeepsContents(g, f, false, false, x);
        }
      }
    }
  }

  // --- A space inside the bill number ---

  /** Upper-casing neither drops a character nor makes a space of one. */
  ghost predicate KeepsCharacters(m: Matcher) {
    forall c :: m.upper(c) != "" && (' ' in m.upper(c) ==> c == ' ')
  }

  lemma {:induction false} UpperGrows(m: Matcher, s: string)
    requires KeepsCharacters(m)
    ensures |m.Upper(s)| >= |s|
    ensures ' ' !in s ==> ' ' !in m.Upper(s)
  {
    if s != "" {
      UpperGrows(m, s[1..]);
      assert s[0] in s && forall c :: c in s[1..] ==> c in s;
    }
  }

  /** A text around which the mark `q` stands, cut in two by it, without the mark. */
  lemma MarkCuts(q: char, a: string, b: string)
    requires a != "" && b != "" && q !in a && q !in b && q != ' '
    ensures !Contains([q] + a + " " + [q] + " " + b + [q], a + " " + b)
  {
    var s, x := [q] + a + " " + [q] + " " + b + [q], a + " " + b;
    assert s[0] == q && s[|a| + 2] == q && s[|s| - 1] == q;
    assert forall k :: 0 <= k < |x| ==> x[k] != q;
    forall i | 0 <= i <= |s| ensures !IsAt(s, x, i) {
      if i + |x| <= |s| {
        var hit := if i == 0 then 0 else if i <= |a| + 2 then |a| + 2 else |s| - 1;
        assert i <= hit < i + |x| && s[hit] == q;
        assert s[i..i + |x|][hit - i] == s[hit];
      }
    }
  }

  lemma UpperOfOne(m: Matcher, c: char)
    ensures m.Upper([c]) == m.upper(c)
  {
    assert [c][1..] == "";
  }

  lemma UpperOfMarked(m: Matcher, q: char, a: string, b: string)
    requires m.Valid() && m.upper(q) == [q]
    ensures m.Upper([q] + a) == [q] + m.Upper(a) && m.Upper(b + [q]) == m.Upper(b) + [q]
  {
    m.UpperOfJoin([q], a);
    m.UpperOfJoin(b, [q]);
    UpperOfOne(m, q);
  }

  /** A line with the two halves of the bill number in two fields. */
  function Halves(q: char, a: string, b: string, between: Option<string>): BankLine {
    BankLine(1, -100, None, Some([q] + a), between, Some(b + [q]), None)
  }

  lemma HalvesJoin(m: Matcher, q: char, a: string, b: string)
    requires m.Valid() && !m.isSpace(q)
    ensures m.Combined(Halves(q, a, b, None)) == [q] + a + " " + (b + [q])
    ensures m.Combined(Halves(q, a, b, Some([q]))) == [q] + a + " " + ([q] + " " + (b + [q]))
  {
    m.TrimKeepsInk([q] + a, 0);
    m.TrimKeepsInk(b + [q], |b|);
    m.TrimKeepsInk([q], 0);
    var f, g := m.Fields(Halves(q, a, b, None)), m.Fields(Halves(q, a, b, Some([q])));
    assert m.Present(f[3..]) == [] && m.Present(g[3..]) == [];
    assert m.Present(f[2..]) == [b + [q]] && m.Present(g[2..]) == [b + [q]];
    assert m.Present(f[1..]) == [b + [q]] && m.Present(g[1..]) == [[q], b + [q]];
    assert m.Present(f) == [[q] + a, b + [q]] && m.Present(g) == [[q] + a, [q], b + [q]];
    JoinTwoOrThree([q] + a, [q], b + [q]);
  }

  lemma JoinTwoOrThree(a: string, b: string, c: string)
    ensures Join([a, c]) == a + " " + c && Join([a, b, c]) == a + " " + (b + " " + c)
  {
    assert [a, c][1..] == [c] && [b, c][1..] == [c] && [a, b, c][1..] == [b, c];
  }

  lemma HalvesUpper(m: Matcher, q: char, a: string, b: string)
    requires m.Valid() && !m.isSpace(q) && m.upper(q) == [q]
    ensures m.Upper(m.Combined(Halves(q, a, b, None))) == [q] + m.Upper(a) + " " + (m.Upper(b) + [q])
    ensures m.Upper(m.Combined(Halves(q, a, b, Some([q])))) == [q] + m.Upper(a) + " " + ([q] + " " + (m.Upper(b) + [q]))
  {
    HalvesJoin(m, q, a, b);
    UpperOfMarked(m, q, a, b);
    UpperOfOne(m, q);
    m.UpperOfSpace([q] + a, b + [q]);
    m.UpperOfSpace([q] + a, [q] + " " + (b + [q]));
    m.UpperOfSpace([q], b + [q]);
  }

  /** A word character that is in neither the bill number nor the tokens of the supplier's name. */
  ghost predicate IsMark(m: Matcher, payable: Payable, q: char) {
    && m.isWord(q) && m.upper(q) == [q]
    && (payable.billNo.Some? ==> q !in m.Upper(payable.billNo.value))
    && (forall t :: t in m.Tokens(payable.supplierName) ==> q !in t)
  }

  /** The tokens that every line with the bill number has: those between two marks. */
  function ForcedTokens(m: Matcher, q: char, bill: string): set<string> {
    m.Tokens(Some([q] + bill + [q]))
  }

  lemma TokensOfMark(m: Matcher, q: char)
    requires m.isWord(q) && m.upper(q) == [q]
    ensures m.Tokens(Some([q])) == {}
  {
    UpperOfOne(m, q);
    m.SplitOfWord([q]);
    UnitsOfOne(q);
  }

  lemma TokensOfHalves(m: Matcher, q: char, a: string, b: string)
    requires m.Valid() && m.isWord(q) && m.upper(q) == [q]
    ensures m.Tokens(Some(m.Combined(Halves(q, a, b, None)))) == ForcedTokens(m, q, a + " " + b)
    ensures m.Tokens(Some(m.Combined(Halves(q, a, b, Some([q]))))) == ForcedTokens(m, q, a + " " + b)
  {
    HalvesJoin(m, q, a, b);
    assert [q] + (a + " " + b) + [q] == [q] + a + " " + (b + [q]);
    m.TokensOfTwo([q] + a, b + [q]);
    m.TokensOfTwo([q] + a, [q] + " " + (b + [q]));
    m.TokensOfTwo([q], b + [q]);
    TokensOfMark(m, q);
  }

  /** A bill number with a space inside, none of whose forced tokens names the supplier, is found
      across two fields, and no longer once the field between them is filled. */
  lemma FillingBreaksInnerSpace(m: Matcher, payable: Payable, q: char, a: string, b: string)
    requires m.Valid() && KeepsCharacters(m) && IsMark(m, payable, q)
    requires a != "" && b != "" && payable.billNo == Some(a + " " + b)
    requires ForcedTokens(m, q, a + " " + b) !! m.Tokens(payable.supplierName)
    ensures var bank, filled := Halves(q, a, b, None), Halves(q, a, b, Some([q]));
      m.Fills(filled, bank) && m.Corroborates(bank, payable) && !m.Corroborates(filled, payable)
  {
    HalvesContain(m, q, a, b);
    TokensOfHalves(m, q, a, b);
  }

  lemma HalvesContain(m: Matcher, q: char, a: string, b: string)
    requires m.Valid() && KeepsCharacters(m) && m.isWord(q) && m.upper(q) == [q]
    requires a != "" && b != "" && q !in m.Upper(a + " " + b)
    ensures Contains(m.Upper(m.Combined(Halves(q, a, b, None))), m.Upper(a + " " + b))
    ensures !Contains(m.Upper(m.Combined(Halves(q, a, b, Some([q])))), m.Upper(a + " " + b))
  {
    m.UpperOfSpace(a, b);
    UpperGrows(m, a);
    UpperGrows(m, b);
    HalvesUpper(m, q, a, b);
    MarkedContains(q, m.Upper(a), m.Upper(b));
    MarkedSplits(q, m.Upper(a), m.Upper(b));
  }

  lemma MarkedContains(q: char, a: string, b: string)
    ensures Contains([q] + a + " " + (b + [q]), a + " " + b)
  {
    assert [q] + a + " " + (b + [q]) == [q] + (a + " " + b) + [q];
    Widen([q], a + " " + b, [q], a + " " + b) by {
      assert IsAt(a + " " + b, a + " " + b, 0);
    }
  }

  lemma MarkedSplits(q: char, a: string, b: string)
    requires a != "" && b != "" && q !in a && q !in b && q != ' '
    ensures !Contains([q] + a + " " + ([q] + " " + (b + [q])), a + " " + b)
  {
    assert [q] + a + " " + ([q] + " " + (b + [q])) == [q] + a + " " + [q] + " " + b + [q];
    MarkCuts(q, a, b);
  }

  /** A forced token that names the supplier corroborates every line with the bill number. */
  lemma ForcedTokenStays(m: Matcher, payable: Payable, q: char, t: string, combined: string)
    requires m.Valid() && IsMark(m, payable, q) && payable.billNo.Some?
    requires t in ForcedTokens(m, q, payable.billNo.value) && t in m.Tokens(payable.supplierName)
    requires Contains(m.Upper(combined), m.Upper(payable.billNo.value))
    ensures t in m.Tokens(Some(combined))
  {
    var s, x := m.Upper(combined), m.Upper(payable.billNo.value);
    UpperOfMarked(m, q, payable.billNo.value, payable.billNo.value);
    m.UpperOfJoin([q] + payable.billNo.value, [q]);
    UpperOfOne(m, q);
    var i :| 0 <= i <= |s| && IsAt(s, x, i);
    assert s == s[..i] + x + s[i + |x|..];
    m.PieceIsForced(q, x, t, s[..i], s[i + |x|..]);
  }

  lemma ForcedTokenKeeps(m: Matcher, bank: BankLine, filled: BankLine, payable: Payable, q: char, t: string)
    requires m.Valid() && IsMark(m, payable, q) && payable.billNo.Some?
    requires t in ForcedTokens(m, q, payable.billNo.value) && t in m.Tokens(payable.supplierName)
    requires m.Fills(filled, bank) && m.Corroborates(bank, payable)
    ensures m.Corroborates(filled, payable)
  {
    if Contains(m.Upper(m.Combined(bank)), m.Upper(payable.billNo.value)) {
      ForcedTokenStays(m, payable, q, t, m.Combined(bank));
    }
    var f, g := m.Fields(bank), m.Fields(filled);
    m.TokensOfJoin(f);
    m.TokensOfJoin(g);
    m.MoreFieldsMoreTokens(f, g);
  }

  lemma UpperHasNoNewInnerSpace(m: Matcher, s: string)
    requires m.Valid() && KeepsCharacters(m) && !HasInnerSpace(s)
    ensures !HasInnerSpace(m.Upper(s))
  {
    if |s| <= 1 {
      if s != "" {
        assert s == [s[0]];
        UpperOfOne(m, s[0]);
      }
    } else {
      var first, inner, last := s[0], s[1..|s|-1], s[|s|-1];
      assert s == [first] + (inner + [last]);
      m.UpperOfJoin([first], inner + [last]);
      m.UpperOfJoin(inner, [last]);
      UpperOfOne(m, first);
      UpperOfOne(m, last);
      assert forall i :: 0 <= i < |inner| ==> inner[i] == s[i + 1];
      UpperGrows(m, inner);
      SpacesAtTheEnds(m.upper(first), m.Upper(inner), m.upper(last));
    }
  }

  lemma SpacesAtTheEnds(a: string, b: string, c: string)
    requires (' ' in a ==> a == " ") && ' ' !in b && (' ' in c ==> c == " ")
    ensures !HasInnerSpace(a + (b + c))
  {
    var s := a + (b + c);
    forall i | 0 < i < |s| - 1 ensures s[i] != ' ' {
      if i < |a| {
        assert s[i] == a[i] && a[i] in a;
      } else if i < |a| + |b| {
        assert s[i] == b[i - |a|] && b[i - |a|] in b;
      } else {
        assert s[i] == c[i - |a| - |b|] && c[i - |a| - |b|] in c;
      }
    }
  }

  /** Filling empty bank fields never removes corroboration of the creditor. */
  ghost predicate FillingIsSafe(m: Matcher, payable: Payable) {
    forall bank, filled :: m.Fills(filled, bank) && m.Corroborates(bank, payable) ==> m.Corroborates(filled, payable)
  }

  /** For every creditor: filling is safe exactly when the bill number has no space between two
      other characters, or when a token that every line with it has names the supplier. */
  lemma FillingIsSafeExactlyWhen(m: Matcher, payable: Payable, q: char)
    requires m.Valid() && KeepsCharacters(m) && IsMark(m, payable, q)
    ensures FillingIsSafe(m, payable) <==>
      || payable.billNo.None?
      || !HasInnerSpace(payable.billNo.value)
      || exists t :: t in ForcedTokens(m, q, payable.billNo.value) && t in m.Tokens(payable.supplierName)
  {
    if payable.billNo.None? || !HasInnerSpace(payable.billNo.value) {
      KeepsWithoutInnerSpace(m, payable);
    } else if t :| t in ForcedTokens(m, q, payable.billNo.value) && t in m.Tokens(payable.supplierName) {
      forall bank, filled | m.Fills(filled, bank) && m.Corroborates(bank, payable) ensures m.Corroborates(filled, payable) {
        ForcedTokenKeeps(m, bank, filled, payable, q, t);
      }
    } else {
      var bill := payable.billNo.value;
      var i :| 0 < i < |bill| - 1 && bill[i] == ' ';
      assert bill == bill[..i] + " " + bill[i + 1..];
      FillingBreaksInnerSpace(m, payable, q, bill[..i], bill[i + 1..]);
    }
  }

  lemma KeepsWithoutInnerSpace(m: Matcher, payable: Payable)
    requires m.Valid() && KeepsCharacters(m) && (payable.billNo.Some? ==> !HasInnerSpace(payable.billNo.value))
    ensures FillingIsSafe(m, payable)
  {
    if payable.billNo.Some? {
      UpperHasNoNewInnerSpace(m, payable.billNo.value);
    }
    forall bank, filled | m.Fills(filled, bank) && m.Corroborates(bank, payable) ensures m.Corroborates(filled, payable) {
      m.FillingKeepsCorroboration(bank, filled, payable);
    }
  }
}
