/** What the book and route phases of the agent run do, in terms of the suggestions and the books
    alone (src/agent/loop.ts): which rows are booked, and what is surfaced of the others. */
module BookingMeaning {
  import opened Options
  import opened PayableMatching
  import opened AgentBooks
  import opened SupplierRules
  import opened ExpenseBooking

  // --- What should happen to a row ---

  /** The k-th suggestion is the row's first most confident purchase. */
  ghost predicate IsBestPurchase(row: Row, k: int) {
    && 0 <= k < |row.suggestions| && row.suggestions[k].kind.PurchaseSale?
    && (forall j :: 0 <= j < |row.suggestions| && row.suggestions[j].kind.PurchaseSale? ==>
        row.suggestions[j].confidence <= row.suggestions[k].confidence)
    && (forall j :: 0 <= j < k && row.suggestions[j].kind.PurchaseSale? ==>
        row.suggestions[j].confidence < row.suggestions[k].confidence)
  }

  ghost predicate HasRule(r: Rules, best: Suggestion) {
    exists rule :: HasOnlyRule(r, best.supplierName, rule)
  }

  /** The only rule is one for equipment, and the amount is at least 5 000 kroner either way. */
  ghost predicate IsEquipment(r: Rules, row: Row, best: Suggestion) {
    exists rule :: HasOnlyRule(r, best.supplierName, rule) && rule.assetLike && (row.amountOre >= 500_000 || row.amountOre <= -500_000)
  }

  /** The row may be booked: a confident suggestion with an only rule and no equipment, on an outgoing
      line and a document that are free, and the ledger accepts it. */
  ghost predicate MayBeBooked(r: Rules, at: Start, row: Row, best: Suggestion) {
    && (exists k :: IsBestPurchase(row, k) && row.suggestions[k] == best)
    && best.confidence >= 65 && HasRule(r, best) && !IsEquipment(r, row, best)
    && row.bankTransactionId !in at.reconciled && best.documentId !in at.bookedDocuments
    && at.policy.acceptsBooking(best.documentId, row.bankTransactionId)
    && exists l :: l in at.bankLines && l.id == row.bankTransactionId && l.amountOre < 0
  }

  /** Among the rows that may be booked with one document the one with the lowest line id is. */
  ghost predicate IsBooked(r: Rules, at: Start, rows: seq<Row>, row: Row, best: Suggestion) {
    && row in rows && MayBeBooked(r, at, row, best)
    && forall other, x :: other in rows && MayBeBooked(r, at, other, x) && x.documentId == best.documentId ==>
      row.bankTransactionId <= other.bankTransactionId
  }

  /** What is surfaced of a row that is not booked. */
  ghost predicate IsReason(r: Rules, row: Row, best: Suggestion, e: AgentException) {
    e ==
      if best.confidence < 65 then LowConfidenceMatch(row.bankTransactionId, best.documentId)
      else if !HasRule(r, best) then NoAccountRule(row.bankTransactionId, best.documentId)
      else if IsEquipment(r, row, best) then PossibleFixedAsset(row.bankTransactionId, best.documentId)
      else BookingBlocked(row.bankTransactionId, best.documentId)
  }

  ghost predicate IsSurfacedAs(r: Rules, at: Start, rows: seq<Row>, e: AgentException) {
    exists row, k :: row in rows && IsBestPurchase(row, k) && !IsBooked(r, at, rows, row, row.suggestions[k])
      && IsReason(r, row, row.suggestions[k], e)
  }

  ghost predicate IsEntry(r: Rules, row: Row, best: Suggestion, x: BookedExpense) {
    exists rule :: HasOnlyRule(r, best.supplierName, rule) &&
      x == BookedExpense(best.documentId, row.bankTransactionId, best.supplierName.value, row.amountOre,
        rule.expenseAccount, rule.vatTreatment, rule.category)
  }

  ghost predicate IsRunOf(r: Rules, at: Start, rows: seq<Row>, before: State, b: seq<Row>, u: seq<Row>, after: State) {
    OneRowPerLine(rows) && IsRun(at, rows, before, b, u, after) && forall row :: at.decide(row) == Decide(r, row)
  }

  // --- The decision on a row ---

  lemma BestIsUnique(row: Row, j: int, k: int)
    requires IsBestPurchase(row, j) && IsBestPurchase(row, k)
    ensures j == k
  {
  }

  /** Where the purchases stand in the list of all suggestions. */
  lemma {:induction false} PurchaseStands(suggestions: seq<Suggestion>, i: int) returns (front: seq<Suggestion>, back: seq<Suggestion>)
    requires 0 <= i < |Purchases(suggestions)|
    ensures suggestions == front + [Purchases(suggestions)[i]] + back && |Purchases(front)| == i
  {
    var first, tail := suggestions[0], suggestions[1..];
    assert suggestions == [first] + tail;
    if first.kind.PurchaseSale? && i == 0 {
      front, back := [], tail;
    } else {
      var rest;
      rest, back := PurchaseStands(tail, if first.kind.PurchaseSale? then i - 1 else i);
      front := [first] + rest;
      assert front[1..] == rest;
      assert suggestions == front + [Purchases(suggestions)[i]] + back;
    }
  }

  lemma {:induction false} PurchasesSplit(a: seq<Suggestion>, b: seq<Suggestion>)
    ensures Purchases(a + b) == Purchases(a) + Purchases(b)
  {
    if a == [] {
      assert a + b == b;
    } else {
      PurchasesSplit(a[1..], b);
      assert (a + b)[0] == a[0] && (a + b)[1..] == a[1..] + b;
      var first := if a[0].kind.PurchaseSale? then [a[0]] else [];
      assert first + (Purchases(a[1..]) + Purchases(b)) == (first + Purchases(a[1..])) + Purchases(b);
    }
  }

  lemma EarlierPurchase(suggestions: seq<Suggestion>, j: int, k: int) returns (i: int)
    requires 0 <= j < k < |suggestions| && suggestions[j].kind.PurchaseSale?
    ensures 0 <= i < |Purchases(suggestions[..k])| <= |Purchases(suggestions)| && Purchases(suggestions)[i] == suggestions[j]
  {
    var front := suggestions[..k];
    assert front[j] in front;
    i :| 0 <= i < |Purchases(front)| && Purchases(front)[i] == suggestions[j];
    PurchasesSplit(front, suggestions[k..]);
    assert suggestions == front + suggestions[k..];
  }

  lemma FirstStands(row: Row, i: int, k: int)
    requires IsFirstMostConfident(Purchases(row.suggestions), i)
    requires 0 <= k < |row.suggestions| && row.suggestions[k] == Purchases(row.suggestions)[i]
    requires i == |Purchases(row.suggestions[..k])|
    ensures IsBestPurchase(row, k)
  {
    var p := Purchases(row.suggestions);
    assert p[i] in p;
    forall j | 0 <= j < |row.suggestions| && row.suggestions[j].kind.PurchaseSale?
      ensures row.suggestions[j].confidence <= row.suggestions[k].confidence
    {
      assert row.suggestions[j] in p;
    }
    forall j | 0 <= j < k && row.suggestions[j].kind.PurchaseSale?
      ensures row.suggestions[j].confidence < row.suggestions[k].confidence
    {
      var l := EarlierPurchase(row.suggestions, j, k);
      assert p[l].confidence < p[i].confidence;
    }
  }

  lemma FirstInRow(row: Row, i: int) returns (k: int)
    requires IsFirstMostConfident(Purchases(row.suggestions), i)
    ensures IsBestPurchase(row, k) && row.suggestions[k] == Purchases(row.suggestions)[i]
  {
    var front, back := PurchaseStands(row.suggestions, i);
    k := |front|;
    assert row.suggestions[..k] == front;
    FirstStands(row, i, k);
  }

  /** The chosen suggestion is the first most confident purchase of the row. */
  lemma BestMeans(row: Row) returns (k: int)
    ensures Best(row).Some? ==> IsBestPurchase(row, k) && row.suggestions[k] == Best(row).value
    ensures Best(row).None? ==> forall j :: !IsBestPurchase(row, j)
  {
    BestIsFirstMostConfident(row);
    k := 0;
    if Best(row).Some? {
      var i :| IsFirstMostConfident(Purchases(row.suggestions), i) && Purchases(row.suggestions)[i] == Best(row).value;
      k := FirstInRow(row, i);
    }
  }

  lemma ResolvedMeans(r: Rules, best: Suggestion)
    ensures var rule := Resolve(r.rules, r.lower, best.supplierName);
      && (HasRule(r, best) <==> rule.Some?)
      && (rule.Some? ==> HasOnlyRule(r, best.supplierName, rule.value) && forall x :: HasOnlyRule(r, best.supplierName, x) ==> x == rule.value)
  {
    forall rule ensures Resolve(r.rules, r.lower, best.supplierName) == Some(rule) <==> HasOnlyRule(r, best.supplierName, rule) {
      OnlyRuleResolves(r, best.supplierName, rule);
    }
  }

  /** The decision on a row with the best purchase `best`. */
  lemma DecisionMeans(r: Rules, row: Row, best: Suggestion)
    requires Best(row) == Some(best)
    ensures var d := Decide(r, row);
      && !d.NoCandidate? && d.best == best
      && (d.Book? <==> best.confidence >= 65 && HasRule(r, best) && !IsEquipment(r, row, best))
      && (d.Book? ==> HasOnlyRule(r, best.supplierName, d.rule))
      && forall e :: e in ExceptionsOf(d, row) <==> IsReason(r, row, best, e)
  {
    ResolvedMeans(r, best);
  }

  lemma NoDecision(r: Rules, row: Row)
    requires Best(row).None?
    ensures Decide(r, row).NoCandidate?
  {
  }

  // --- The run ---

  lemma OnlyBestMayBeBooked(r: Rules, at: Start, row: Row, best: Suggestion)
    requires MayBeBooked(r, at, row, best)
    ensures Best(row) == Some(best)
  {
    var j :| IsBestPurchase(row, j) && row.suggestions[j] == best;
    var k := BestMeans(row);
    if Best(row).Some? {
      BestIsUnique(row, j, k);
    }
  }

  /** A row that may be booked is one that the ledger would book if it came first. */
  lemma MayBookMeans(r: Rules, at: Start, row: Row)
    requires forall x :: at.decide(x) == Decide(r, x)
    ensures MayBook(at, row) ==> MayBeBooked(r, at, row, at.decide(row).best)
    ensures forall best :: MayBeBooked(r, at, row, best) ==> MayBook(at, row) && at.decide(row).best == best
  {
    if Best(row).Some? {
      var k := BestMeans(row);
      DecisionMeans(r, row, Best(row).value);
      assert IsBestPurchase(row, k) && row.suggestions[k] == Best(row).value;
    } else {
      NoDecision(r, row);
    }
    forall best | MayBeBooked(r, at, row, best) ensures MayBook(at, row) && at.decide(row).best == best {
      OnlyBestMayBeBooked(r, at, row, best);
    }
  }

  /** The rows listed as booked are those that should be. */
  lemma BookedMeans(r: Rules, at: Start, rows: seq<Row>, row: Row)
    requires forall x :: at.decide(x) == Decide(r, x)
    ensures Books(at, rows, row) ==> IsBooked(r, at, rows, row, at.decide(row).best)
    ensures forall best :: IsBooked(r, at, rows, row, best) ==> Books(at, rows, row) && at.decide(row).best == best
  {
    MayBookMeans(r, at, row);
    if Books(at, rows, row) {
      forall other, x | other in rows && MayBeBooked(r, at, other, x) && x.documentId == at.decide(row).best.documentId
        ensures row.bankTransactionId <= other.bankTransactionId
      {
        MayBookMeans(r, at, other);
        assert SameDocument(at, row, other);
      }
    }
    forall best | IsBooked(r, at, rows, row, best) ensures Books(at, rows, row) && at.decide(row).best == best {
      forall other | other in rows && MayBook(at, other) && SameDocument(at, row, other)
        ensures row.bankTransactionId <= other.bankTransactionId
      {
        MayBookMeans(r, at, other);
      }
    }
  }

  lemma {:induction false} OneReasonEach(at: Start, u: seq<Row>)
    requires forall row :: row in u ==> !at.decide(row).NoCandidate?
    ensures var more := Exceptions(at, u);
      |more| == |u| && forall i :: 0 <= i < |u| ==> ExceptionsOf(at.decide(u[i]), u[i]) == [more[i]]
  {
    if u != [] {
      var front, last := u[..|u|-1], u[|u|-1];
      OneReasonEach(at, front);
      assert last in u;
    }
  }

  lemma {:induction false} OneEntryEach(at: Start, b: seq<Row>)
    requires forall row :: row in b ==> at.decide(row).Book?
    ensures var more := Expenses(at, b);
      |more| == |b| && forall i :: 0 <= i < |b| ==> ExpensesOf(at.decide(b[i]), b[i]) == [more[i]]
  {
    if b != [] {
      var front, last := b[..|b|-1], b[|b|-1];
      OneEntryEach(at, front);
      assert last in b;
    }
  }

  lemma SurfacedRow(r: Rules, at: Start, rows: seq<Row>, row: Row, e: AgentException)
    requires (forall x :: at.decide(x) == Decide(r, x)) && IsSurfaced(at, rows, row) && ExceptionsOf(at.decide(row), row) == [e]
    ensures IsSurfacedAs(r, at, rows, e) && e.bankTransactionId == row.bankTransactionId
  {
    var k := BestMeans(row);
    if Best(row).None? {
      NoDecision(r, row);
    }
    var best := Best(row).value;
    DecisionMeans(r, row, best);
    assert e in ExceptionsOf(at.decide(row), row);
    BookedMeans(r, at, rows, row);
    assert IsBestPurchase(row, k) && IsReason(r, row, row.suggestions[k], e);
  }

  lemma ReasonIsSurfaced(r: Rules, at: Start, rows: seq<Row>, row: Row, k: int, e: AgentException)
    requires (forall x :: at.decide(x) == Decide(r, x)) && row in rows && IsBestPurchase(row, k)
    requires !IsBooked(r, at, rows, row, row.suggestions[k]) && IsReason(r, row, row.suggestions[k], e)
    ensures IsSurfaced(at, rows, row) && ExceptionsOf(at.decide(row), row) == [e]
  {
    var j := BestMeans(row);
    assert Best(row).Some?;
    BestIsUnique(row, j, k);
    DecisionMeans(r, row, Best(row).value);
    assert e in ExceptionsOf(at.decide(row), row);
    BookedMeans(r, at, rows, row);
  }

  /** In the order of the bank lines, the exceptions list what keeps each row with a purchase from
      being booked, once for each such row and for no other. */
  lemma ReasonsAreSurfaced(r: Rules, at: Start, rows: seq<Row>, before: State, b: seq<Row>, u: seq<Row>, after: State)
    returns (more: seq<AgentException>)
    requires IsRunOf(r, at, rows, before, b, u, after)
    ensures after.exceptions == before.exceptions + more
    ensures forall i, j :: 0 <= i < j < |more| ==> more[i].bankTransactionId < more[j].bankTransactionId
    ensures forall e :: e in more <==> IsSurfacedAs(r, at, rows, e)
  {
    more := Exceptions(at, u);
    SortedRowsAscend(rows);
    OneReasonEach(at, u);
    forall i | 0 <= i < |u| ensures IsSurfacedAs(r, at, rows, more[i]) && more[i].bankTransactionId == u[i].bankTransactionId {
      SurfacedLike(at, SortRows(rows), rows, u[i]);
      SurfacedRow(r, at, rows, u[i], more[i]);
    }
    forall e | IsSurfacedAs(r, at, rows, e) ensures e in more {
      var row, k :| row in rows && IsBestPurchase(row, k) && !IsBooked(r, at, rows, row, row.suggestions[k])
        && IsReason(r, row, row.suggestions[k], e);
      ReasonIsSurfaced(r, at, rows, row, k, e);
      SurfacedLike(at, SortRows(rows), rows, row);
      var i :| 0 <= i < |u| && u[i] == row;
      assert more[i] == e;
    }
  }

  lemma SurfacedLike(at: Start, rows: seq<Row>, like: seq<Row>, row: Row)
    requires forall x :: x in rows <==> x in like
    ensures Books(at, rows, row) <==> Books(at, like, row)
    ensures IsSurfaced(at, rows, row) <==> IsSurfaced(at, like, row)
  {
  }

  lemma BookedRow(r: Rules, at: Start, rows: seq<Row>, row: Row, x: BookedExpense)
    requires (forall y :: at.decide(y) == Decide(r, y)) && Books(at, rows, row) && ExpensesOf(at.decide(row), row) == [x]
    ensures IsBooked(r, at, rows, row, at.decide(row).best) && IsEntry(r, row, at.decide(row).best, x)
  {
    BookedMeans(r, at, rows, row);
    OnlyBestMayBeBooked(r, at, row, at.decide(row).best);
    DecisionMeans(r, row, at.decide(row).best);
  }

  lemma EntryIsBooked(r: Rules, at: Start, rows: seq<Row>, row: Row, best: Suggestion, x: BookedExpense)
    requires (forall y :: at.decide(y) == Decide(r, y)) && IsBooked(r, at, rows, row, best) && IsEntry(r, row, best, x)
    ensures Books(at, rows, row) && ExpensesOf(at.decide(row), row) == [x]
  {
    BookedMeans(r, at, rows, row);
    OnlyBestMayBeBooked(r, at, row, best);
    DecisionMeans(r, row, best);
    ResolvedMeans(r, best);
  }

  /** In the order of the bank lines, the report lists exactly the rows that should be booked, each
      with the account, treatment and category of its only rule. */
  lemma BookingsAreReported(r: Rules, at: Start, rows: seq<Row>, before: State, b: seq<Row>, u: seq<Row>, after: State)
    returns (more: seq<BookedExpense>)
    requires IsRunOf(r, at, rows, before, b, u, after)
    ensures after.expenses == before.expenses + more
    ensures forall i, j :: 0 <= i < j < |more| ==> more[i].bankTransactionId < more[j].bankTransactionId
    ensures forall x :: x in more <==> exists row, best :: IsBooked(r, at, rows, row, best) && IsEntry(r, row, best, x)
  {
    more := Expenses(at, b);
    SortedRowsAscend(rows);
    OneEntryEach(at, b);
    forall i | 0 <= i < |b|
      ensures more[i].bankTransactionId == b[i].bankTransactionId
      ensures IsBooked(r, at, rows, b[i], at.decide(b[i]).best) && IsEntry(r, b[i], at.decide(b[i]).best, more[i])
    {
      SurfacedLike(at, SortRows(rows), rows, b[i]);
      BookedRow(r, at, rows, b[i], more[i]);
    }
    forall x, row, best | IsBooked(r, at, rows, row, best) && IsEntry(r, row, best, x) ensures x in more {
      EntryIsBooked(r, at, rows, row, best, x);
      SurfacedLike(at, SortRows(rows), rows, row);
      var i :| 0 <= i < |b| && b[i] == row;
      assert more[i] == x;
    }
  }

  /** The rows of the run that are listed as booked. */
  ghost predicate AreBooked(r: Rules, at: Start, rows: seq<Row>, b: seq<Row>) {
    && (forall row :: row in b ==> at.decide(row).Book? && IsBooked(r, at, rows, row, at.decide(row).best))
    && (forall row, best :: IsBooked(r, at, rows, row, best) ==> row in b && at.decide(row).Book? && at.decide(row).best == best)
  }

  lemma RunBooks(r: Rules, at: Start, rows: seq<Row>, before: State, b: seq<Row>, u: seq<Row>, after: State)
    requires IsRunOf(r, at, rows, before, b, u, after)
    ensures AreBooked(r, at, rows, b)
  {
    SortedRowsAscend(rows);
    forall row
      ensures row in b ==> at.decide(row).Book? && IsBooked(r, at, rows, row, at.decide(row).best)
      ensures forall best :: IsBooked(r, at, rows, row, best) ==> row in b && at.decide(row).Book? && at.decide(row).best == best
    {
      SurfacedLike(at, SortRows(rows), rows, row);
      BookedMeans(r, at, rows, row);
    }
  }

  lemma LineIsUsed(r: Rules, at: Start, rows: seq<Row>, b: seq<Row>, line: int)
    requires AreBooked(r, at, rows, b)
    ensures line in RowIds(b) <==> exists row, best :: IsBooked(r, at, rows, row, best) && row.bankTransactionId == line
  {
    if line in RowIds(b) {
      var row :| row in b && row.bankTransactionId == line;
      assert IsBooked(r, at, rows, row, at.decide(row).best);
    }
  }

  lemma DocumentIsUsed(r: Rules, at: Start, rows: seq<Row>, b: seq<Row>, document: int)
    requires AreBooked(r, at, rows, b)
    ensures document in Documents(at, b) <==> exists row, best :: IsBooked(r, at, rows, row, best) && best.documentId == document
  {
    if document in Documents(at, b) {
      var row :| row in b && at.decide(row).Book? && at.decide(row).best.documentId == document;
      assert IsBooked(r, at, rows, row, at.decide(row).best);
    }
  }

  /** Lines and documents are used by the bookings and by nothing else. */
  lemma BookingsUseTheirLines(r: Rules, at: Start, rows: seq<Row>, before: State, b: seq<Row>, u: seq<Row>, after: State)
    requires IsRunOf(r, at, rows, before, b, u, after)
    ensures forall line :: line in after.reconciled <==>
      line in before.reconciled || exists row, best :: IsBooked(r, at, rows, row, best) && row.bankTransactionId == line
    ensures forall document :: document in after.bookedDocuments <==>
      document in before.bookedDocuments || exists row, best :: IsBooked(r, at, rows, row, best) && best.documentId == document
  {
    RunBooks(r, at, rows, before, b, u, after);
    forall line
      ensures line in after.reconciled <==>
        line in before.reconciled || exists row, best :: IsBooked(r, at, rows, row, best) && row.bankTransactionId == line
    {
      LineIsUsed(r, at, rows, b, line);
    }
    forall document
      ensures document in after.bookedDocuments <==>
        document in before.bookedDocuments || exists row, best :: IsBooked(r, at, rows, row, best) && best.documentId == document
    {
      DocumentIsUsed(r, at, rows, b, document);
    }
  }
}
