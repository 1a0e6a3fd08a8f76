/** The book and route phases of the agent run (src/agent/loop.ts): book the unambiguous
    expenses, surface the rest. */
module ExpenseBooking {
  import opened Options
  import opened PayableMatching
  import opened AgentBooks
  import opened SupplierRules
  import opened Sorting

  datatype Kind = IssuedInvoice | PurchaseSale | CreditNoteRefund | SupplierCreditRefund

  /** A bank-match suggestion; the confidence is in hundredths. */
  datatype Suggestion = Suggestion(kind: Kind, documentId: int, supplierName: Option<string>, confidence: int)

  /** The suggestions for one bank line. */
  datatype Row = Row(bankTransactionId: int, amountOre: int, suggestions: seq<Suggestion>)

  datatype Rules = Rules(rules: seq<SupplierRule>, lower: string -> string)

  // --- The decision on one row ---

  function Purchases(suggestions: seq<Suggestion>): (r: seq<Suggestion>)
    ensures forall s :: s in r <==> s in suggestions && s.kind.PurchaseSale?
  {
    if suggestions == [] then []
    else (if suggestions[0].kind.PurchaseSale? then [suggestions[0]] else []) + Purchases(suggestions[1..])
  }

  function Doubt(s: Suggestion): int { -s.confidence }

  /** The purchase suggestion of the highest confidence, the first among equals. */
  function Best(row: Row): Option<Suggestion> {
    var sorted := Sort(Purchases(row.suggestions), Doubt, IntLe);
    if sorted == [] then None else Some(sorted[0])
  }

  datatype Decision =
    | NoCandidate
    | LowConfidence(best: Suggestion)
    | NoRule(best: Suggestion)
    | FixedAsset(best: Suggestion)
    | Book(best: Suggestion, rule: SupplierRule)

  /** What becomes of a purchase suggestion. */
  function DecideOn(r: Rules, suggestion: Option<Suggestion>, amountOre: int): Decision {
    match suggestion
    case None => NoCandidate
    case Some(best) =>
      if best.confidence < AUTO_BOOK_CONFIDENCE_THRESHOLD then LowConfidence(best)
      else match Resolve(r.rules, r.lower, best.supplierName)
           case None => NoRule(best)
           case Some(rule) => if LooksLikeFixedAsset(rule, amountOre) then FixedAsset(best) else Book(best, rule)
  }

  function Decide(r: Rules, row: Row): Decision {
    DecideOn(r, Best(row), row.amountOre)
  }

  /** No suggestion is more confident than `p[k]`, and those before it are less so. */
  ghost predicate IsFirstMostConfident(p: seq<Suggestion>, k: int) {
    && 0 <= k < |p|
    && (forall i :: 0 <= i < |p| ==> p[i].confidence <= p[k].confidence)
    && (forall i :: 0 <= i < k ==> p[i].confidence < p[k].confidence)
  }

  /** The chosen suggestion is the first of the most confident purchases. */
  lemma BestIsFirstMostConfident(row: Row)
    ensures Best(row).None? <==> forall s :: s in row.suggestions ==> !s.kind.PurchaseSale?
    ensures Best(row).Some? ==>
      exists k :: IsFirstMostConfident(Purchases(row.suggestions), k) && Purchases(row.suggestions)[k] == Best(row).value
  {
    var p := Purchases(row.suggestions);
    if p == [] {
      assert forall s :: s in row.suggestions && s.kind.PurchaseSale? ==> s in p;
    } else {
      assert p[0] in p;
      var k := HeadOfSort(p, Doubt);
      assert IsFirstMostConfident(p, k) by {
        assert forall i :: 0 <= i < |p| ==> Doubt(p[k]) <= Doubt(p[i]);
        assert forall i :: 0 <= i < k ==> Doubt(p[k]) < Doubt(p[i]);
      }
      assert Best(row) == Some(p[k]);
    }
  }

  ghost predicate HasOnlyRule(r: Rules, supplierName: Option<string>, rule: SupplierRule) {
    && supplierName.Some? && supplierName.value != ""
    && exists i :: MatchesOnly(r.rules, r.lower(supplierName.value), i) && r.rules[i] == rule
  }

  lemma OnlyRuleResolves(r: Rules, supplierName: Option<string>, rule: SupplierRule)
    ensures Resolve(r.rules, r.lower, supplierName) == Some(rule) <==> HasOnlyRule(r, supplierName, rule)
  {
    if supplierName.Some? && supplierName.value != "" {
      ResolvedExactlyWhen(r.rules, r.lower, supplierName.value, rule);
    }
  }

  lemma DecidedOnExactlyWhen(r: Rules, suggestion: Option<Suggestion>, amountOre: int, best: Suggestion, rule: SupplierRule)
    ensures DecideOn(r, suggestion, amountOre) == Book(best, rule) <==>
      && suggestion == Some(best)
      && best.confidence >= 65
      && HasOnlyRule(r, best.supplierName, rule)
      && !(rule.assetLike && (amountOre >= 500_000 || amountOre <= -500_000))
  {
    OnlyRuleResolves(r, best.supplierName, rule);
  }

  /** A row is decided for booking exactly when its most confident purchase suggestion reaches the
      threshold, its supplier has exactly one rule, and it is no equipment purchase of that size. */
  lemma DecidedExactlyWhen(r: Rules, row: Row, best: Suggestion, rule: SupplierRule)
    ensures Decide(r, row) == Book(best, rule) <==>
      && Best(row) == Some(best)
      && best.confidence >= 65
      && HasOnlyRule(r, best.supplierName, rule)
      && !(rule.assetLike && (row.amountOre >= 500_000 || row.amountOre <= -500_000))
  {
    DecidedOnExactlyWhen(r, Best(row), row.amountOre, best, rule);
  }

  // --- What should happen ---

  /** Where the run starts: the fixed judgements, and the lines and documents already used. */
  datatype Start = Start(
    decide: Row -> Decision, policy: Policy, bankLines: seq<BankLine>, reconciled: set<int>, bookedDocuments: set<int>)

  /** The row is decided for booking, its line is outgoing, and line and document are unused. */
  ghost predicate IsFree(at: Start, reconciled: set<int>, bookedDocuments: set<int>, row: Row) {
    var d := at.decide(row);
    && d.Book?
    && row.bankTransactionId !in reconciled && d.best.documentId !in bookedDocuments
    && at.policy.acceptsBooking(d.best.documentId, row.bankTransactionId)
    && exists l :: l in at.bankLines && l.id == row.bankTransactionId && l.amountOre < 0
  }

  /** The ledger would book the row if it came first. */
  ghost predicate MayBook(at: Start, row: Row) {
    IsFree(at, at.reconciled, at.bookedDocuments, row)
  }

  ghost predicate SameDocument(at: Start, row: Row, other: Row) {
    at.decide(row).Book? && at.decide(other).Book? && at.decide(row).best.documentId == at.decide(other).best.documentId
  }

  /** A document goes to the row with the lowest bank-line id among those that may book it. */
  ghost predicate Books(at: Start, rows: seq<Row>, row: Row) {
    && row in rows && MayBook(at, row)
    && forall other :: other in rows && MayBook(at, other) && SameDocument(at, row, other) ==> row.bankTransactionId <= other.bankTransactionId
  }

  ghost predicate IsSurfaced(at: Start, rows: seq<Row>, row: Row) {
    row in rows && !at.decide(row).NoCandidate? && !Books(at, rows, row)
  }

  ghost predicate Ascending(rows: seq<Row>) {
    forall i, j :: 0 <= i < j < |rows| ==> rows[i].bankTransactionId < rows[j].bankTransactionId
  }

  /** `b` lists exactly the rows booked and `u` those surfaced, by bank-line id. */
  ghost predicate IsOutcome(at: Start, rows: seq<Row>, b: seq<Row>, u: seq<Row>) {
    && (forall row :: row in b <==> Books(at, rows, row))
    && (forall row :: row in u <==> IsSurfaced(at, rows, row))
    && Ascending(b) && Ascending(u)
  }

  // --- One more row ---

  lemma OneMoreRow(rows: seq<Row>, k: nat)
    requires k < |rows| && Ascending(rows)
    ensures Ascending(rows[..k]) && Ascending(rows[..k+1])
    ensures forall x :: x in rows[..k+1] <==> x in rows[..k] || x == rows[k]
    ensures forall x :: x in rows[..k] ==> x.bankTransactionId < rows[k].bankTransactionId
  {
    assert rows[..k+1] == rows[..k] + [rows[k]];
  }

  /** Among the rows that may book a document there is a first one. */
  lemma {:induction false} FirstRow(at: Start, rows: seq<Row>, like: Row) returns (row: Row)
    requires Ascending(rows) && exists x :: x in rows && MayBook(at, x) && SameDocument(at, like, x)
    ensures row in rows && MayBook(at, row) && SameDocument(at, like, row)
    ensures forall x :: x in rows && MayBook(at, x) && SameDocument(at, like, x) ==> row.bankTransactionId <= x.bankTransactionId
  {
    assert rows == [rows[0]] + rows[1..];
    if MayBook(at, rows[0]) && SameDocument(at, like, rows[0]) {
      row := rows[0];
    } else {
      row := FirstRow(at, rows[1..], like);
    }
  }

  /** The document of `row` has been booked. */
  ghost predicate IsTaken(at: Start, b: seq<Row>, row: Row) {
    exists x :: x in b && SameDocument(at, row, x)
  }

  lemma TakenWhenBookable(at: Start, rows: seq<Row>, b: seq<Row>, u: seq<Row>, row: Row)
    requires IsOutcome(at, rows, b, u) && Ascending(rows) && at.decide(row).Book?
    ensures IsTaken(at, b, row) <==> exists x :: x in rows && MayBook(at, x) && SameDocument(at, row, x)
  {
    if exists x :: x in rows && MayBook(at, x) && SameDocument(at, row, x) {
      var x := FirstRow(at, rows, row);
      assert Books(at, rows, x);
    }
  }

  /** Earlier rows are judged the same when one more row is seen. */
  lemma EarlierRowsStand(at: Start, rows: seq<Row>, k: nat, x: Row)
    requires k < |rows| && Ascending(rows) && x in rows[..k]
    ensures Books(at, rows[..k+1], x) <==> Books(at, rows[..k], x)
    ensures IsSurfaced(at, rows[..k+1], x) <==> IsSurfaced(at, rows[..k], x)
  {
    OneMoreRow(rows, k);
  }

  /** The next row books its document exactly when it may and no earlier row has. */
  lemma NextRowBooks(at: Start, rows: seq<Row>, k: nat, b: seq<Row>, u: seq<Row>)
    requires k < |rows| && Ascending(rows) && IsOutcome(at, rows[..k], b, u)
    ensures Books(at, rows[..k+1], rows[k]) <==> MayBook(at, rows[k]) && !IsTaken(at, b, rows[k])
  {
    OneMoreRow(rows, k);
    if MayBook(at, rows[k]) {
      TakenWhenBookable(at, rows[..k], b, u, rows[k]);
    }
  }

  function Listed(s: seq<Row>, row: Row, yes: bool): seq<Row> {
    if yes then s + [row] else s
  }

  /** With the next row listed, a row is booked and surfaced as it should be. */
  lemma RowIsListed(at: Start, rows: seq<Row>, k: nat, b: seq<Row>, u: seq<Row>, booked: bool, x: Row)
    requires k < |rows| && Ascending(rows) && IsOutcome(at, rows[..k], b, u)
    requires booked <==> MayBook(at, rows[k]) && !IsTaken(at, b, rows[k])
    ensures x in Listed(b, rows[k], booked) <==> Books(at, rows[..k+1], x)
    ensures x in Listed(u, rows[k], !booked && !at.decide(rows[k]).NoCandidate?) <==> IsSurfaced(at, rows[..k+1], x)
  {
    OneMoreRow(rows, k);
    NextRowBooks(at, rows, k, b, u);
    if x in rows[..k] {
      EarlierRowsStand(at, rows, k, x);
    }
  }

  lemma ListedAscends(rows: seq<Row>, k: nat, s: seq<Row>, yes: bool)
    requires k < |rows| && Ascending(rows) && Ascending(s) && forall x :: x in s ==> x in rows[..k]
    ensures Ascending(Listed(s, rows[k], yes))
  {
    OneMoreRow(rows, k);
    assert forall i :: 0 <= i < |s| ==> s[i] in s;
  }

  lemma OutcomeGrows(at: Start, rows: seq<Row>, k: nat, b: seq<Row>, u: seq<Row>, booked: bool)
    requires k < |rows| && Ascending(rows) && IsOutcome(at, rows[..k], b, u)
    requires booked <==> MayBook(at, rows[k]) && !IsTaken(at, b, rows[k])
    ensures IsOutcome(at, rows[..k+1],
      Listed(b, rows[k], booked), Listed(u, rows[k], !booked && !at.decide(rows[k]).NoCandidate?))
  {
    var surfaced := !booked && !at.decide(rows[k]).NoCandidate?;
    forall x
      ensures (x in Listed(b, rows[k], booked) <==> Books(at, rows[..k+1], x))
        && (x in Listed(u, rows[k], surfaced) <==> IsSurfaced(at, rows[..k+1], x))
    {
      RowIsListed(at, rows, k, b, u, booked, x);
    }
    ListedAscends(rows, k, b, booked);
    ListedAscends(rows, k, u, surfaced);
  }

  // --- The ledger and the report follow the outcome ---

  /** The part of the ledger and the report that the phase writes. */
  datatype State = State(reconciled: set<int>, bookedDocuments: set<int>, expenses: seq<BookedExpense>, exceptions: seq<AgentException>)

  function ExpensesOf(d: Decision, row: Row): seq<BookedExpense> {
    if d.Book? then
      [BookedExpense(d.best.documentId, row.bankTransactionId, GetOr(d.best.supplierName, "ukendt"), row.amountOre,
         d.rule.expenseAccount, d.rule.vatTreatment, d.rule.category)]
    else []
  }

  /** What is surfaced when the row is not booked. */
  function ExceptionsOf(d: Decision, row: Row): seq<AgentException> {
    match d
    case NoCandidate => []
    case LowConfidence(best) => [LowConfidenceMatch(row.bankTransactionId, best.documentId)]
    case NoRule(best) => [NoAccountRule(row.bankTransactionId, best.documentId)]
    case FixedAsset(best) => [PossibleFixedAsset(row.bankTransactionId, best.documentId)]
    case Book(best, _) => [BookingBlocked(row.bankTransactionId, best.documentId)]
  }

  function Expenses(at: Start, b: seq<Row>): seq<BookedExpense> {
    if b == [] then [] else Expenses(at, b[..|b|-1]) + ExpensesOf(at.decide(b[|b|-1]), b[|b|-1])
  }

  function Exceptions(at: Start, u: seq<Row>): seq<AgentException> {
    if u == [] then [] else Exceptions(at, u[..|u|-1]) + ExceptionsOf(at.decide(u[|u|-1]), u[|u|-1])
  }

  ghost function RowIds(b: seq<Row>): set<int> {
    set row | row in b :: row.bankTransactionId
  }

  ghost function Documents(at: Start, b: seq<Row>): set<int> {
    set row | row in b && at.decide(row).Book? :: at.decide(row).best.documentId
  }

  ghost predicate IsStep(at: Start, now: State, next: State, row: Row, booked: bool) {
    var d := at.decide(row);
    && (booked ==> d.Book?)
    && next.expenses == now.expenses + (if booked then ExpensesOf(d, row) else [])
    && next.exceptions == now.exceptions + (if booked then [] else ExceptionsOf(d, row))
    && next.reconciled == now.reconciled + (if booked then {row.bankTransactionId} else {})
    && next.bookedDocuments == now.bookedDocuments + if booked then {d.best.documentId} else {}
  }

  /** The effect of booking `b` and surfacing `u`. */
  ghost predicate IsEffect(at: Start, before: State, b: seq<Row>, u: seq<Row>, after: State) {
    && after.expenses == before.expenses + Expenses(at, b)
    && after.exceptions == before.exceptions + Exceptions(at, u)
    && after.reconciled == before.reconciled + RowIds(b)
    && after.bookedDocuments == before.bookedDocuments + Documents(at, b)
  }

  lemma OneMoreBooked(at: Start, b: seq<Row>, row: Row)
    requires at.decide(row).Book?
    ensures forall before: seq<BookedExpense> {:trigger before + Expenses(at, b)} ::
      before + Expenses(at, b + [row]) == (before + Expenses(at, b)) + ExpensesOf(at.decide(row), row)
    ensures RowIds(b + [row]) == RowIds(b) + {row.bankTransactionId}
    ensures Documents(at, b + [row]) == Documents(at, b) + {at.decide(row).best.documentId}
  {
    assert (b + [row])[..|b|] == b;
    assert forall x :: x in b + [row] <==> x in b || x == row;
    assert row in b + [row];
  }

  lemma OneMoreSurfaced(at: Start, u: seq<Row>, row: Row)
    ensures forall before: seq<AgentException> {:trigger before + Exceptions(at, u)} ::
      before + Exceptions(at, u + [row]) == (before + Exceptions(at, u)) + ExceptionsOf(at.decide(row), row)
  {
    assert (u + [row])[..|u|] == u;
  }

  lemma OneMoreEffect(at: Start, before: State, b: seq<Row>, u: seq<Row>, now: State, next: State, row: Row, booked: bool)
    requires IsEffect(at, before, b, u, now) && IsStep(at, now, next, row, booked)
    ensures IsEffect(at, before, Listed(b, row, booked), Listed(u, row, !booked && !at.decide(row).NoCandidate?), next)
  {
    if booked {
      OneMoreBooked(at, b, row);
      assert before.expenses + Expenses(at, b) == now.expenses;
    } else {
      OneMoreSurfaced(at, u, row);
      assert before.exceptions + Exceptions(at, u) == now.exceptions;
    }
  }

  /** What the loop knows in front of row `k`. */
  ghost predicate LoopState(at: Start, before: State, rows: seq<Row>, k: nat, b: seq<Row>, u: seq<Row>, now: State) {
    && at.reconciled == before.reconciled && at.bookedDocuments == before.bookedDocuments
    && Ascending(rows) && k <= |rows|
    && IsOutcome(at, rows[..k], b, u)
    && IsEffect(at, before, b, u, now)
  }

  /** The ledger takes the next row exactly when it may be booked and its document is not taken. */
  lemma FreeWhenNotTaken(at: Start, before: State, rows: seq<Row>, k: nat, b: seq<Row>, u: seq<Row>, now: State)
    requires LoopState(at, before, rows, k, b, u, now) && k < |rows|
    ensures IsFree(at, now.reconciled, now.bookedDocuments, rows[k]) <==> MayBook(at, rows[k]) && !IsTaken(at, b, rows[k])
  {
    var row := rows[k];
    OneMoreRow(rows, k);
    assert forall x :: x in b ==> x in rows[..k];
    assert row.bankTransactionId !in RowIds(b);
    if at.decide(row).Book? {
      var id := at.decide(row).best.documentId;
      assert id in Documents(at, b) <==> IsTaken(at, b, row);
    }
  }

  lemma LoopStep(at: Start, before: State, rows: seq<Row>, k: nat, b: seq<Row>, u: seq<Row>, now: State, booked: bool, next: State)
    requires LoopState(at, before, rows, k, b, u, now) && k < |rows|
    requires booked <==> IsFree(at, now.reconciled, now.bookedDocuments, rows[k])
    requires IsStep(at, now, next, rows[k], booked)
    ensures LoopState(at, before, rows, k + 1, Listed(b, rows[k], booked),
      Listed(u, rows[k], !booked && !at.decide(rows[k]).NoCandidate?), next)
  {
    assert IsOutcome(at, rows[..k+1], Listed(b, rows[k], booked), Listed(u, rows[k], !booked && !at.decide(rows[k]).NoCandidate?)) by {
      FreeWhenNotTaken(at, before, rows, k, b, u, now);
      OutcomeGrows(at, rows, k, b, u, booked);
    }
    OneMoreEffect(at, before, b, u, now, next, rows[k], booked);
  }

  /** The whole phase: `b` lists exactly the rows booked and `u` exactly those surfaced, and the
      ledger and the report show them and nothing else. */
  ghost predicate IsRun(at: Start, rows: seq<Row>, before: State, b: seq<Row>, u: seq<Row>, after: State) {
    IsOutcome(at, SortRows(rows), b, u) && IsEffect(at, before, b, u, after)
  }

  // --- The loop ---

  function RowId(row: Row): int { row.bankTransactionId }

  function SortRows(rows: seq<Row>): seq<Row> {
    Sort(rows, RowId, IntLe)
  }

  /** One suggestion row per bank line. */
  ghost predicate OneRowPerLine(rows: seq<Row>) {
    DistinctKeys(rows, RowId)
  }

  lemma SortedRowsAscend(rows: seq<Row>)
    requires OneRowPerLine(rows)
    ensures Ascending(SortRows(rows)) && forall row :: row in SortRows(rows) <==> row in rows
  {
    var r := SortRows(rows);
    IntLeIsTotal();
    SortIsSorted(rows, RowId, IntLe);
    SortKeepsDistinctKeys(rows, RowId, IntLe);
    forall i, j | 0 <= i < j < |r| ensures r[i].bankTransactionId < r[j].bankTransactionId {
      assert IntLe(RowId(r[i]), RowId(r[j])) && RowId(r[i]) != RowId(r[j]);
    }
    forall row ensures row in r <==> row in rows {
      SameElements(r, rows, row);
    }
  }

  /** The body of the loop. */
  method BookRow(db: Ledger, report: Report, rules: Rules, row: Row, ghost at: Start) returns (booked: bool)
    requires db.Valid() && at.policy == db.policy && at.bankLines == db.bankLines && at.decide(row) == Decide(rules, row)
    modifies db`reconciled, db`bookedDocuments, report`expensesBooked, report`exceptions
    ensures db.Valid()
    ensures booked <==> IsFree(at, old(db.reconciled), old(db.bookedDocuments), row)
    ensures IsStep(at,
      old(State(db.reconciled, db.bookedDocuments, report.expensesBooked, report.exceptions)),
      State(db.reconciled, db.bookedDocuments, report.expensesBooked, report.exceptions), row, booked)
  {
    booked := false;
    match Decide(rules, row) {
      case NoCandidate =>
      case LowConfidence(best) =>
        report.exceptions := report.exceptions + [LowConfidenceMatch(row.bankTransactionId, best.documentId)];
      case NoRule(best) =>
        report.exceptions := report.exceptions + [NoAccountRule(row.bankTransactionId, best.documentId)];
      case FixedAsset(best) =>
        report.exceptions := report.exceptions + [PossibleFixedAsset(row.bankTransactionId, best.documentId)];
      case Book(best, rule) =>
        booked := db.BookExpenseFromBank(best.documentId, row.bankTransactionId);
        if booked {
          report.expensesBooked := report.expensesBooked + [
            BookedExpense(best.documentId, row.bankTransactionId, GetOr(best.supplierName, "ukendt"), row.amountOre,
              rule.expenseAccount, rule.vatTreatment, rule.category)];
        } else {
          report.exceptions := report.exceptions + [BookingBlocked(row.bankTransactionId, best.documentId)];
        }
    }
  }

  /** Books the unambiguous expenses and surfaces the rest. */
  method BookExpenses(db: Ledger, report: Report, rules: Rules, suggestions: seq<Row>)
      returns (ghost at: Start, ghost b: seq<Row>, ghost u: seq<Row>)
    requires db.Valid() && OneRowPerLine(suggestions)
    modifies db`reconciled, db`bookedDocuments, report`expensesBooked, report`exceptions
    ensures db.Valid()
    ensures at.policy == db.policy && at.bankLines == db.bankLines && forall row :: at.decide(row) == Decide(rules, row)
    ensures at.reconciled == old(db.reconciled) && at.bookedDocuments == old(db.bookedDocuments)
    ensures IsRun(at, suggestions,
      old(State(db.reconciled, db.bookedDocuments, report.expensesBooked, report.exceptions)), b, u,
      State(db.reconciled, db.bookedDocuments, report.expensesBooked, report.exceptions))
  {
    at := Start(row => Decide(rules, row), db.policy, db.bankLines, db.reconciled, db.bookedDocuments);
    b, u := [], [];
    var rows := SortRows(suggestions);
    SortedRowsAscend(suggestions);
    ghost var before := State(db.reconciled, db.bookedDocuments, report.expensesBooked, report.exceptions);
    for k := 0 to |rows|
      invariant db.Valid()
      invariant LoopState(at, before, rows, k, b, u, State(db.reconciled, db.bookedDocuments, report.expensesBooked, report.exceptions))
    {
      ghost var now := State(db.reconciled, db.bookedDocuments, report.expensesBooked, report.exceptions);
      var booked := BookRow(db, report, rules, rows[k], at);
      ghost var next := State(db.reconciled, db.bookedDocuments, report.expensesBooked, report.exceptions);
      LoopStep(at, before, rows, k, b, u, now, booked, next);
      b, u := Listed(b, rows[k], booked), Listed(u, rows[k], !booked && !at.decide(rows[k]).NoCandidate?);
    }
    assert rows[..|rows|] == rows;
  }

  // --- What the phase guarantees ---

  /** The same books, with the bank lines in any order. */
  ghost predicate StartAlike(at: Start, to: Start) {
    && (forall row :: at.decide(row) == to.decide(row))
    && at.policy == to.policy && at.reconciled == to.reconciled && at.bookedDocuments == to.bookedDocuments
    && forall l :: l in at.bankLines <==> l in to.bankLines
  }

  lemma BooksAlike(at: Start, to: Start, rows: seq<Row>, like: seq<Row>, row: Row)
    requires StartAlike(at, to) && forall x :: x in rows <==> x in like
    ensures Books(at, rows, row) <==> Books(to, like, row)
    ensures IsSurfaced(at, rows, row) <==> IsSurfaced(to, like, row)
  {
    forall x ensures MayBook(at, x) <==> MayBook(to, x) {
    }
  }

  lemma {:induction false} ReportedAlike(at: Start, to: Start, b: seq<Row>)
    requires StartAlike(at, to)
    ensures Expenses(at, b) == Expenses(to, b) && Exceptions(at, b) == Exceptions(to, b)
  {
    if b != [] {
      ReportedAlike(at, to, b[..|b|-1]);
    }
  }

  /** Permuting the suggestion rows or the bank lines changes nothing. */
  lemma RowOrderDoesNotMatter(at1: Start, rows1: seq<Row>, at2: Start, rows2: seq<Row>, before: State,
      b1: seq<Row>, u1: seq<Row>, after1: State, b2: seq<Row>, u2: seq<Row>, after2: State)
    requires StartAlike(at1, at2) && OneRowPerLine(rows1) && multiset(rows1) == multiset(rows2)
    requires IsRun(at1, rows1, before, b1, u1, after1) && IsRun(at2, rows2, before, b2, u2, after2)
    ensures b1 == b2 && u1 == u2 && after1 == after2
  {
    IntLeIsTotal();
    SortForgetsOrder(rows1, rows2, RowId, IntLe);
    forall row ensures (row in b1 <==> row in b2) && (row in u1 <==> row in u2) {
      BooksAlike(at1, at2, SortRows(rows1), SortRows(rows2), row);
    }
    SameRows(b1, b2);
    SameRows(u1, u2);
    ReportedAlike(at1, at2, b1);
    ReportedAlike(at1, at2, u1);
    assert Documents(at1, b1) == Documents(at2, b1);
  }

  // --- A second pass books nothing ---

  /** `next` starts with what a pass from `at` has booked. */
  ghost predicate StartsAfter(at: Start, b: seq<Row>, next: Start) {
    && next.policy == at.policy && next.bankLines == at.bankLines && (forall row :: next.decide(row) == at.decide(row))
    && at.reconciled <= next.reconciled && at.bookedDocuments + Documents(at, b) <= next.bookedDocuments
  }

  /** What could be booked has been, or another row with its document. */
  lemma NothingLeftToBook(at: Start, rows: seq<Row>, b: seq<Row>, u: seq<Row>, next: Start, row: Row)
    requires Ascending(rows) && IsOutcome(at, rows, b, u) && StartsAfter(at, b, next) && row in rows
    ensures !MayBook(next, row)
  {
    if MayBook(next, row) {
      assert MayBook(at, row) && SameDocument(at, row, row);
      TakenWhenBookable(at, rows, b, u, row);
    }
  }

  /** Booking again what is left of the rows books nothing. */
  lemma SecondPassBooksNothing(at: Start, rows: seq<Row>, b: seq<Row>, u: seq<Row>, next: Start, remaining: seq<Row>, b': seq<Row>, u': seq<Row>)
    requires OneRowPerLine(rows) && OneRowPerLine(remaining) && forall row :: row in remaining ==> row in rows
    requires IsOutcome(at, SortRows(rows), b, u) && StartsAfter(at, b, next) && IsOutcome(next, SortRows(remaining), b', u')
    ensures b' == []
  {
    SortedRowsAscend(rows);
    SortedRowsAscend(remaining);
    if b' != [] {
      assert b'[0] in b';
      NothingLeftToBook(at, SortRows(rows), b, u, next, b'[0]);
    }
  }

  /** A booked expense as the rules allow it: it is that of the most confident purchase suggestion
      of a row, at or above the threshold, under the only rule of its supplier, and no equipment
      purchase of that size. */
  ghost predicate IsSoundBooking(r: Rules, rows: seq<Row>, x: BookedExpense, row: Row, best: Suggestion, rule: SupplierRule) {
    && row in rows && Best(row) == Some(best) && best.confidence >= 65 && HasOnlyRule(r, best.supplierName, rule)
    && !(rule.assetLike && (row.amountOre >= 500_000 || row.amountOre <= -500_000))
    && x == BookedExpense(best.documentId, row.bankTransactionId, best.supplierName.value, row.amountOre,
         rule.expenseAccount, rule.vatTreatment, rule.category)
  }

  ghost predicate HasSoundBooking(r: Rules, rows: seq<Row>, x: BookedExpense) {
    exists row, best, rule :: IsSoundBooking(r, rows, x, row, best, rule)
  }

  lemma {:induction false} ExpenseOfRow(at: Start, b: seq<Row>, x: BookedExpense) returns (row: Row)
    requires x in Expenses(at, b)
    ensures row in b && x in ExpensesOf(at.decide(row), row)
  {
    if x in Expenses(at, b[..|b|-1]) {
      row := ExpenseOfRow(at, b[..|b|-1], x);
    } else {
      row := b[|b|-1];
    }
  }

  /** Every expense that a run books is sound. */
  lemma EveryBookingIsSound(r: Rules, at: Start, rows: seq<Row>, b: seq<Row>, u: seq<Row>, x: BookedExpense)
    requires OneRowPerLine(rows) && IsOutcome(at, SortRows(rows), b, u)
    requires (forall row :: at.decide(row) == Decide(r, row)) && x in Expenses(at, b)
    ensures HasSoundBooking(r, rows, x)
  {
    var row := ExpenseOfRow(at, b, x);
    SortedRowsAscend(rows);
    assert Books(at, SortRows(rows), row);
    var Book(best, rule) := Decide(r, row);
    DecidedExactlyWhen(r, row, best, rule);
    assert IsSoundBooking(r, rows, x, row, best, rule);
  }

  lemma SameRows(s: seq<Row>, t: seq<Row>)
    requires Ascending(s) && Ascending(t) && forall x :: x in s <==> x in t
    ensures s == t
  {
    IntLeIsTotal();
    DistinctSameElements(s, t);
    SortedIsUnique(s, t, RowId, IntLe);
  }

  /** Every row is exactly one of: without a candidate, booked, surfaced. A row is booked exactly
      when it is decided for booking, the ledger would take it, and no row of a lower line id may
      book the same document; no document and no bank line is booked twice. */
  lemma BookedExactlyWhen(at: Start, rows: seq<Row>, before: State, b: seq<Row>, u: seq<Row>, after: State, row: Row)
    requires OneRowPerLine(rows) && IsRun(at, rows, before, b, u, after) && row in rows
    ensures row in b <==>
      && MayBook(at, row)
      && forall other :: other in rows && MayBook(at, other) && SameDocument(at, row, other) ==> row.bankTransactionId <= other.bankTransactionId
    ensures row in u <==> row !in b && !at.decide(row).NoCandidate?
    ensures forall x, y :: x in b && y in b && (x.bankTransactionId == y.bankTransactionId || SameDocument(at, x, y)) ==> x == y
  {
    SortedRowsAscend(rows);
    forall x, y | x in b && y in b && (x.bankTransactionId == y.bankTransactionId || SameDocument(at, x, y)) ensures x == y {
      if SameDocument(at, x, y) {
        assert x.bankTransactionId == y.bankTransactionId;
      }
      RowIsIdentified(b, x, y);
    }
  }

  lemma RowIsIdentified(b: seq<Row>, x: Row, y: Row)
    requires Ascending(b) && x in b && y in b && x.bankTransactionId == y.bankTransactionId
    ensures x == y
  {
  }
}
