/** The phases of the agent run that write to the ledger, one after the other
    (src/agent/loop.ts). */
module AgentRun {
  import opened Lists
  import opened Options
  import opened Sorting
  import opened PayableMatching
  import opened AgentBooks
  import Booking = ExpenseBooking
  import Settling = PayableSettlement

  /** The ledger and the report of a run. */
  datatype Books = Books(
    payables: seq<Payable>, reconciled: set<int>, bookedDocuments: set<int>,
    expenses: seq<BookedExpense>, matched: seq<PayableMatch>, exceptions: seq<AgentException>)

  /** What a run does: it books `b`, surfaces `u`, settles `s`, and surfaces `d`. */
  datatype Outcome = Outcome(
    at: Booking.Start, b: seq<Booking.Row>, u: seq<Booking.Row>, s: seq<Settling.Settlement>, d: seq<Settling.Settlement>)

  ghost predicate StartsAt(policy: Policy, bankLines: seq<BankLine>, rules: Booking.Rules, before: Books, at: Booking.Start) {
    && at.policy == policy && at.bankLines == bankLines
    && at.reconciled == before.reconciled && at.bookedDocuments == before.bookedDocuments
    && forall row :: at.decide(row) == Booking.Decide(rules, row)
  }

  /** The unambiguous rows are booked, then what is unambiguous among the lines left is settled; the
      ledger and the report show this and nothing else. */
  ghost predicate IsRun(policy: Policy, bankLines: seq<BankLine>, rules: Booking.Rules, suggestions: seq<Booking.Row>,
    before: Books, o: Outcome, after: Books)
  {
    var open := Settling.Open(before.payables);
    var lines := Settling.UnmatchedOutgoing(bankLines, before.reconciled + Booking.RowIds(o.b));
    && StartsAt(policy, bankLines, rules, before, o.at)
    && Booking.IsOutcome(o.at, Booking.SortRows(suggestions), o.b, o.u)
    && Settling.IsOutcome(policy, open, lines, o.s)
    && Settling.IsDoubtList(policy, open, lines, o.d)
    && Settling.IsAfterSettlements(before.payables, after.payables, o.s)
    && Settling.TotalOpen(after.payables) == Settling.TotalOpen(before.payables) - Settling.TotalUsed(o.s)
    && after.reconciled == before.reconciled + Booking.RowIds(o.b) + Settling.LineIds(o.s)
    && after.bookedDocuments == before.bookedDocuments + Booking.Documents(o.at, o.b)
    && after.expenses == before.expenses + Booking.Expenses(o.at, o.b)
    && after.matched == before.matched + Map(Settling.MatchOf, o.s)
    && after.exceptions == before.exceptions + Booking.Exceptions(o.at, o.u) + Map(Settling.DoubtOf, o.d)
  }

  /** Every bank line that was unmatched at the start ends in exactly one of three ways. */
  ghost predicate EndsOneWay(booked: set<int>, settled: set<int>, reconciled: set<int>, line: int) {
    || (line in booked && line !in settled && line in reconciled)
    || (line !in booked && line in settled && line in reconciled)
    || (line !in booked && line !in settled && line !in reconciled)
  }

  lemma SettledLinesWereFree(policy: Policy, bankLines: seq<BankLine>, before: Settling.State, s: seq<Settling.Settlement>, d: seq<Settling.Settlement>, after: Settling.State)
    requires DistinctLines(bankLines) && Settling.IsRun(policy, bankLines, before, s, d, after)
    ensures Settling.LineIds(s) !! before.reconciled
  {
    Settling.UnmatchedOutgoingIsAscending(bankLines, before.reconciled);
  }

  /** The two phases, one on the books that the other leaves. */
  lemma PhasesAreRun(policy: Policy, bankLines: seq<BankLine>, rules: Booking.Rules, suggestions: seq<Booking.Row>,
      before: Books, middle: Booking.State, o: Outcome, after: Books)
    requires StartsAt(policy, bankLines, rules, before, o.at) && DistinctLines(bankLines)
    requires Booking.IsRun(o.at, suggestions,
      Booking.State(before.reconciled, before.bookedDocuments, before.expenses, before.exceptions), o.b, o.u, middle)
    requires Settling.IsRun(policy, bankLines,
      Settling.State(before.payables, middle.reconciled, before.matched, middle.exceptions), o.s, o.d,
      Settling.State(after.payables, after.reconciled, after.matched, after.exceptions))
    requires after.expenses == middle.expenses && after.bookedDocuments == middle.bookedDocuments
    ensures IsRun(policy, bankLines, rules, suggestions, before, o, after)
    ensures forall line :: line !in before.reconciled ==>
      EndsOneWay(Booking.RowIds(o.b), Settling.LineIds(o.s), after.reconciled, line)
  {
    SettledLinesWereFree(policy, bankLines,
      Settling.State(before.payables, middle.reconciled, before.matched, middle.exceptions), o.s, o.d,
      Settling.State(after.payables, after.reconciled, after.matched, after.exceptions));
  }

  /** Books what is unambiguous, then settles what is unambiguous among the lines left. A line is
      never used twice: each one unmatched at the start is booked, or settled, or left unmatched.
      Every new expense is sound. */
  method BookAndSettle(db: Ledger, report: Report, rules: Booking.Rules, suggestions: seq<Booking.Row>)
      returns (ghost before: Books, ghost o: Outcome, ghost after: Books)
    requires db.Valid() && Booking.OneRowPerLine(suggestions)
    modifies db, report
    ensures db.Valid()
    ensures before == old(Books(db.payables, db.reconciled, db.bookedDocuments, report.expensesBooked, report.payablesMatched, report.exceptions))
    ensures after == Books(db.payables, db.reconciled, db.bookedDocuments, report.expensesBooked, report.payablesMatched, report.exceptions)
    ensures IsRun(db.policy, db.bankLines, rules, suggestions, before, o, after)
    ensures forall line :: line !in before.reconciled ==>
      EndsOneWay(Booking.RowIds(o.b), Settling.LineIds(o.s), after.reconciled, line)
    ensures forall k :: |before.expenses| <= k < |after.expenses| ==>
      Booking.HasSoundBooking(rules, suggestions, after.expenses[k])
  {
    before := Books(db.payables, db.reconciled, db.bookedDocuments, report.expensesBooked, report.payablesMatched, report.exceptions);
    ghost var at, b, u := Booking.BookExpenses(db, report, rules, suggestions);
    ghost var middle := Booking.State(db.reconciled, db.bookedDocuments, report.expensesBooked, report.exceptions);
    ghost var s, d := Settling.MatchPayables(db, report);
    after := Books(db.payables, db.reconciled, db.bookedDocuments, report.expensesBooked, report.payablesMatched, report.exceptions);
    o := Outcome(at, b, u, s, d);
    PhasesAreRun(db.policy, db.bankLines, rules, suggestions, before, middle, o, after);
    NewExpensesAreSound(rules, suggestions, at, b, u, before.expenses, after.expenses);
  }

  lemma NewExpensesAreSound(rules: Booking.Rules, suggestions: seq<Booking.Row>, at: Booking.Start, b: seq<Booking.Row>, u: seq<Booking.Row>,
      before: seq<BookedExpense>, after: seq<BookedExpense>)
    requires Booking.OneRowPerLine(suggestions) && Booking.IsOutcome(at, Booking.SortRows(suggestions), b, u)
    requires (forall row :: at.decide(row) == Booking.Decide(rules, row)) && after == before + Booking.Expenses(at, b)
    ensures forall k :: |before| <= k < |after| ==> Booking.HasSoundBooking(rules, suggestions, after[k])
  {
    var more := Booking.Expenses(at, b);
    forall k | |before| <= k < |after| ensures Booking.HasSoundBooking(rules, suggestions, after[k]) {
      assert after[k] == more[k - |before|];
      Booking.EveryBookingIsSound(rules, at, suggestions, b, u, after[k]);
    }
  }

  // --- The order of everything does not matter ---

  /** The same books, with the payables in any order. */
  ghost predicate BooksAlike(a: Books, b: Books) {
    && multiset(a.payables) == multiset(b.payables)
    && b == a.(payables := b.payables)
  }

  lemma SettledAlike(before1: seq<Payable>, after1: seq<Payable>, before2: seq<Payable>, after2: seq<Payable>, s: seq<Settling.Settlement>)
    requires DistinctIds(before1) && DistinctIds(before2) && multiset(before1) == multiset(before2)
    requires Settling.IsAfterSettlements(before1, after1, s) && Settling.IsAfterSettlements(before2, after2, s)
    ensures multiset(after1) == multiset(after2)
  {
    Settling.SameElementsInLists(before1, before2);
    forall x ensures x in after1 <==> x in after2 {
      SettledElsewhere(before1, after1, before2, after2, s, x);
      SettledElsewhere(before2, after2, before1, after1, s, x);
    }
    DistinctSameElements(after1, after2);
  }

  lemma SettledElsewhere(before1: seq<Payable>, after1: seq<Payable>, before2: seq<Payable>, after2: seq<Payable>, s: seq<Settling.Settlement>, x: Payable)
    requires forall p :: p in before1 <==> p in before2
    requires Settling.IsAfterSettlements(before1, after1, s) && Settling.IsAfterSettlements(before2, after2, s)
    ensures x in after1 ==> x in after2
  {
    if x in after1 {
      var i :| 0 <= i < |after1| && after1[i] == x;
      assert before1[i] in before2;
      var j :| 0 <= j < |before2| && before2[j] == before1[i];
      assert after2[j] == x;
    }
  }

  /** Permuting the suggestion rows, the bank lines and the payables changes nothing of a run: it
      books and settles the same, and leaves the same books, up to the order of the payables. */
  lemma RunForgetsOrder(policy: Policy, rules: Booking.Rules,
      bankLines1: seq<BankLine>, rows1: seq<Booking.Row>, before1: Books, o1: Outcome, after1: Books,
      bankLines2: seq<BankLine>, rows2: seq<Booking.Row>, before2: Books, o2: Outcome, after2: Books)
    requires DistinctLines(bankLines1) && DistinctLines(bankLines2) && multiset(bankLines1) == multiset(bankLines2)
    requires Booking.OneRowPerLine(rows1) && multiset(rows1) == multiset(rows2)
    requires DistinctIds(before1.payables) && DistinctIds(before2.payables) && BooksAlike(before1, before2)
    requires IsRun(policy, bankLines1, rules, rows1, before1, o1, after1)
    requires IsRun(policy, bankLines2, rules, rows2, before2, o2, after2)
    ensures o1.b == o2.b && o1.u == o2.u && o1.s == o2.s && o1.d == o2.d
    ensures BooksAlike(after1, after2)
  {
    Settling.SameElementsInLists(bankLines1, bankLines2);
    assert Booking.StartAlike(o1.at, o2.at);
    BookingForgetsOrder(rows1, rows2, o1, o2);
    SettlingForgetsOrder(policy, bankLines1, before1, o1, bankLines2, before2, o2);
    SettledAlike(before1.payables, after1.payables, before2.payables, after2.payables, o1.s);
  }

  lemma BookingForgetsOrder(rows1: seq<Booking.Row>, rows2: seq<Booking.Row>, o1: Outcome, o2: Outcome)
    requires Booking.StartAlike(o1.at, o2.at) && Booking.OneRowPerLine(rows1) && multiset(rows1) == multiset(rows2)
    requires Booking.IsOutcome(o1.at, Booking.SortRows(rows1), o1.b, o1.u)
    requires Booking.IsOutcome(o2.at, Booking.SortRows(rows2), o2.b, o2.u)
    ensures o1.b == o2.b && o1.u == o2.u
    ensures Booking.Expenses(o1.at, o1.b) == Booking.Expenses(o2.at, o2.b)
    ensures Booking.Exceptions(o1.at, o1.u) == Booking.Exceptions(o2.at, o2.u)
    ensures Booking.Documents(o1.at, o1.b) == Booking.Documents(o2.at, o2.b)
  {
    var before := Booking.State({}, {}, [], []);
    var after1 := Booking.State(Booking.RowIds(o1.b), Booking.Documents(o1.at, o1.b), Booking.Expenses(o1.at, o1.b), Booking.Exceptions(o1.at, o1.u));
    var after2 := Booking.State(Booking.RowIds(o2.b), Booking.Documents(o2.at, o2.b), Booking.Expenses(o2.at, o2.b), Booking.Exceptions(o2.at, o2.u));
    Booking.RowOrderDoesNotMatter(o1.at, rows1, o2.at, rows2, before, o1.b, o1.u, after1, o2.b, o2.u, after2);
  }

  lemma SettlingForgetsOrder(policy: Policy,
      bankLines1: seq<BankLine>, before1: Books, o1: Outcome, bankLines2: seq<BankLine>, before2: Books, o2: Outcome)
    requires DistinctLines(bankLines1) && DistinctLines(bankLines2) && multiset(bankLines1) == multiset(bankLines2)
    requires multiset(before1.payables) == multiset(before2.payables)
    requires before1.reconciled == before2.reconciled && o1.b == o2.b
    requires var lines := Settling.UnmatchedOutgoing(bankLines1, before1.reconciled + Booking.RowIds(o1.b));
      var open := Settling.Open(before1.payables);
      Settling.IsOutcome(policy, open, lines, o1.s) && Settling.IsDoubtList(policy, open, lines, o1.d)
    requires var lines := Settling.UnmatchedOutgoing(bankLines2, before2.reconciled + Booking.RowIds(o2.b));
      var open := Settling.Open(before2.payables);
      Settling.IsOutcome(policy, open, lines, o2.s) && Settling.IsDoubtList(policy, open, lines, o2.d)
    ensures o1.s == o2.s && o1.d == o2.d
  {
    var used := before1.reconciled + Booking.RowIds(o1.b);
    Settling.SameElementsInLists(bankLines1, bankLines2);
    Settling.SameElementsInLists(before1.payables, before2.payables);
    Settling.UnmatchedOutgoingIsAscending(bankLines1, used);
    Settling.UnmatchedOutgoingIsAscending(bankLines2, used);
    Settling.OutcomeDependsOnElements(policy,
      Settling.Open(before1.payables), Settling.UnmatchedOutgoing(bankLines1, used), o1.s, o1.d,
      Settling.Open(before2.payables), Settling.UnmatchedOutgoing(bankLines2, used), o2.s, o2.d);
  }

  // --- A second run does nothing ---

  ghost predicate IsSettling(policy: Policy, bankLines: seq<BankLine>, before: seq<Payable>, reconciled: set<int>,
    s: seq<Settling.Settlement>, d: seq<Settling.Settlement>, after: seq<Payable>)
  {
    var open, lines := Settling.Open(before), Settling.UnmatchedOutgoing(bankLines, reconciled);
    && Settling.IsOutcome(policy, open, lines, s) && Settling.IsDoubtList(policy, open, lines, d)
    && Settling.IsAfterSettlements(before, after, s)
    && Settling.TotalOpen(after) == Settling.TotalOpen(before) - Settling.TotalUsed(s)
  }

  lemma SecondSettlingDoesNothing(policy: Policy, bankLines: seq<BankLine>, before: seq<Payable>, reconciled: set<int>,
      s: seq<Settling.Settlement>, d: seq<Settling.Settlement>, middle: seq<Payable>,
      s': seq<Settling.Settlement>, d': seq<Settling.Settlement>, after: seq<Payable>)
    requires DistinctLines(bankLines) && IsSettling(policy, bankLines, before, reconciled, s, d, middle)
    requires IsSettling(policy, bankLines, middle, reconciled + Settling.LineIds(s), s', d', after)
    ensures s' == [] && after == middle
  {
    var now := Settling.State(middle, reconciled + Settling.LineIds(s), [] + Map(Settling.MatchOf, s), [] + Map(Settling.DoubtOf, d));
    Settling.SecondPassSettlesNothing(policy, bankLines, Settling.State(before, reconciled, [], []), s, d, now, s', d',
      Settling.State(after, now.reconciled + Settling.LineIds(s'), now.matched + Map(Settling.MatchOf, s'), now.exceptions + Map(Settling.DoubtOf, d')));
  }

  /** A run on the books that a run has left, over the same suggestions or those that still stand,
      books and settles nothing. */
  lemma SecondRunDoesNothing(policy: Policy, bankLines: seq<BankLine>, rules: Booking.Rules,
      suggestions: seq<Booking.Row>, before: Books, o: Outcome, middle: Books,
      remaining: seq<Booking.Row>, o': Outcome, after: Books)
    requires DistinctLines(bankLines) && Booking.OneRowPerLine(suggestions) && Booking.OneRowPerLine(remaining)
    requires forall row :: row in remaining ==> row in suggestions
    requires IsRun(policy, bankLines, rules, suggestions, before, o, middle)
    requires IsRun(policy, bankLines, rules, remaining, middle, o', after)
    ensures o'.b == [] && o'.s == [] && after == middle.(exceptions := after.exceptions)
  {
    Booking.SecondPassBooksNothing(o.at, suggestions, o.b, o.u, o'.at, remaining, o'.b, o'.u);
    NothingAdded(o'.at, middle, Booking.RowIds(o'.b), Booking.Documents(o'.at, o'.b), Booking.Expenses(o'.at, o'.b), []);
    SecondSettlingDoesNothing(policy, bankLines, before.payables, before.reconciled + Booking.RowIds(o.b),
      o.s, o.d, middle.payables, o'.s, o'.d, after.payables);
    assert Settling.LineIds(o'.s) == {} && Map(Settling.MatchOf, o'.s) == [];
  }

  lemma NothingAdded(at: Booking.Start, books: Books, lines: set<int>, documents: set<int>, expenses: seq<BookedExpense>, matched: seq<PayableMatch>)
    requires lines == Booking.RowIds([]) && documents == Booking.Documents(at, []) && expenses == Booking.Expenses(at, []) && matched == []
    ensures books.reconciled + lines == books.reconciled && books.reconciled + lines + {} == books.reconciled
    ensures books.bookedDocuments + documents == books.bookedDocuments
    ensures books.expenses + expenses == books.expenses && books.matched + matched == books.matched
  {
  }

  // --- With the program's own judgements ---

  /** The same bank lines, with more of their text fields filled. */
  ghost predicate FillsAll(m: Matcher, filled: seq<BankLine>, lines: seq<BankLine>) {
    && |filled| == |lines|
    && forall i :: 0 <= i < |lines| ==>
      && filled[i].id == lines[i].id && filled[i].amountOre == lines[i].amountOre && filled[i].currency == lines[i].currency
      && m.Fills(filled[i], lines[i])
  }

  /** Filling empty text fields of bank lines never unsettles a payable for which filling is safe. */
  lemma FillingNeverUnsettles(m: Matcher, acceptsPayment: (int, int) -> bool, acceptsBooking: (int, int) -> bool,
      lines: seq<BankLine>, filled: seq<BankLine>, before: Settling.State,
      s: seq<Settling.Settlement>, d: seq<Settling.Settlement>, after: Settling.State,
      s': seq<Settling.Settlement>, d': seq<Settling.Settlement>, after': Settling.State, p: Payable)
    requires DistinctLines(lines) && DistinctLines(filled) && FillsAll(m, filled, lines)
    requires Settling.IsRun(PolicyFor(m, acceptsPayment, acceptsBooking), lines, before, s, d, after)
    requires Settling.IsRun(PolicyFor(m, acceptsPayment, acceptsBooking), filled, before, s', d', after')
    requires p in before.payables && p.openOre > 0 && FillingIsSafe(m, p) && Settling.IsSettled(s, p)
    ensures Settling.IsSettled(s', p)
  {
    var policy := PolicyFor(m, acceptsPayment, acceptsBooking);
    Settling.SettledExactlyWhen(policy, lines, before, s, d, after, p);
    Settling.SettledExactlyWhen(policy, filled, before, s', d', after', p);
    var l :| l in lines && l.amountOre < 0 && l.id !in before.reconciled && Settling.Pays(policy, p, l);
    var i :| 0 <= i < |lines| && lines[i] == l;
    assert filled[i] in filled && Settling.Pays(policy, p, filled[i]);
  }
}
