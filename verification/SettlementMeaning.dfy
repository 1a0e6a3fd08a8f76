/** What the payables phase of the agent run does, in terms of the books alone (src/agent/loop.ts):
    which creditor is settled by which bank line, and what the report says of it. */
module SettlementMeaning {
  import opened Lists
  import opened Options
  import opened PayableMatching
  import opened AgentBooks
  import opened CreditorNames
  import Settling = PayableSettlement

  /** The tables of the platform, the ledger's last word, the bank lines, and the books before the run. */
  datatype Setting = Setting(
    m: Matcher, acceptsPayment: (int, int) -> bool, acceptsBooking: (int, int) -> bool,
    bankLines: seq<BankLine>, before: Settling.State)

  ghost predicate Names(m: Matcher, l: BankLine, p: Payable) {
    ShowsBill(m, l, p) || SharesWord(m, l, p)
  }

  /** An unpaid balance that no other creditor has. */
  ghost predicate IsUnambiguous(g: Setting, p: Payable) {
    && p in g.before.payables && p.openOre > 0
    && forall q :: q in g.before.payables && q.openOre == p.openOre ==> q == p
  }

  /** A free kroner line that takes exactly the balance out of the bank. */
  ghost predicate IsAmountOf(g: Setting, p: Payable, l: BankLine) {
    && l in g.bankLines && l.id !in g.before.reconciled
    && l.amountOre == -p.openOre && IsKroner(g.m, l.currency)
  }

  ghost predicate IsPaymentOf(g: Setting, p: Payable, l: BankLine) {
    IsAmountOf(g, p, l) && Names(g.m, l, p) && g.acceptsPayment(p.payableId, l.id)
  }

  /** The line settles the creditor: it is the first payment of an unambiguous balance. */
  ghost predicate IsSettlement(g: Setting, p: Payable, l: BankLine) {
    IsUnambiguous(g, p) && IsPaymentOf(g, p, l) && forall k :: IsPaymentOf(g, p, k) ==> l.id <= k.id
  }

  /** The line has the amount of an unambiguous balance but does not name the creditor, and comes
      before any payment. */
  ghost predicate IsDoubt(g: Setting, p: Payable, l: BankLine) {
    && IsUnambiguous(g, p) && IsAmountOf(g, p, l) && !Names(g.m, l, p)
    && forall k :: IsPaymentOf(g, p, k) ==> l.id < k.id
  }

  ghost predicate IsRunIn(g: Setting, s: seq<Settling.Settlement>, d: seq<Settling.Settlement>, after: Settling.State) {
    && KnowsKroner(g.m) && DistinctLines(g.bankLines)
    && Settling.IsRun(PolicyFor(g.m, g.acceptsPayment, g.acceptsBooking), g.bankLines, g.before, s, d, after)
  }

  // --- The run and its meaning ---

  function PolicyOf(g: Setting): Policy {
    PolicyFor(g.m, g.acceptsPayment, g.acceptsBooking)
  }

  lemma UniqueMeans(g: Setting, p: Payable)
    ensures Settling.IsUnique(Settling.Open(g.before.payables), p) <==> IsUnambiguous(g, p)
  {
  }

  lemma PaymentMeans(g: Setting, p: Payable, l: BankLine)
    requires KnowsKroner(g.m) && DistinctLines(g.bankLines) && p.openOre > 0
    ensures var lines := Settling.UnmatchedOutgoing(g.bankLines, g.before.reconciled);
      && (l in lines && Settling.AmountMatches(PolicyOf(g), p, l) <==> IsAmountOf(g, p, l))
      && (l in lines && Settling.Pays(PolicyOf(g), p, l) <==> IsPaymentOf(g, p, l))
  {
    Settling.UnmatchedOutgoingIsAscending(g.bankLines, g.before.reconciled);
    IsDkkExactlyWhen(g.m, l.currency);
    CorroboratesExactlyWhen(g.m, l, p);
  }

  lemma PaymentsMean(g: Setting, p: Payable)
    requires KnowsKroner(g.m) && DistinctLines(g.bankLines) && p.openOre > 0
    ensures var lines := Settling.UnmatchedOutgoing(g.bankLines, g.before.reconciled);
      forall k :: k in lines && Settling.Pays(PolicyOf(g), p, k) <==> IsPaymentOf(g, p, k)
  {
    var lines := Settling.UnmatchedOutgoing(g.bankLines, g.before.reconciled);
    forall k ensures k in lines && Settling.Pays(PolicyOf(g), p, k) <==> IsPaymentOf(g, p, k) {
      PaymentMeans(g, p, k);
    }
  }

  lemma SettlesMeans(g: Setting, p: Payable, l: BankLine)
    requires KnowsKroner(g.m) && DistinctLines(g.bankLines)
    ensures var open, lines := Settling.Open(g.before.payables), Settling.UnmatchedOutgoing(g.bankLines, g.before.reconciled);
      Settling.Settles(PolicyOf(g), open, lines, p, l) <==> IsSettlement(g, p, l)
  {
    UniqueMeans(g, p);
    if p.openOre > 0 {
      PaymentsMean(g, p);
    }
  }

  lemma DoubtMeans(g: Setting, p: Payable, l: BankLine)
    requires KnowsKroner(g.m) && DistinctLines(g.bankLines)
    ensures var open, lines := Settling.Open(g.before.payables), Settling.UnmatchedOutgoing(g.bankLines, g.before.reconciled);
      Settling.IsDoubtful(PolicyOf(g), open, lines, p, l) <==> IsDoubt(g, p, l)
  {
    UniqueMeans(g, p);
    if p.openOre > 0 {
      PaymentsMean(g, p);
      PaymentMeans(g, p, l);
      CorroboratesExactlyWhen(g.m, l, p);
    }
  }

  lemma RunMeans(g: Setting, s: seq<Settling.Settlement>, d: seq<Settling.Settlement>, after: Settling.State, p: Payable, l: BankLine)
    requires IsRunIn(g, s, d, after)
    ensures Settling.Settlement(p, l) in s <==> IsSettlement(g, p, l)
    ensures Settling.Settlement(p, l) in d <==> IsDoubt(g, p, l)
  {
    SettlesMeans(g, p, l);
    DoubtMeans(g, p, l);
  }

  lemma SettledMeans(g: Setting, s: seq<Settling.Settlement>, d: seq<Settling.Settlement>, after: Settling.State, p: Payable)
    requires IsRunIn(g, s, d, after)
    ensures Settling.IsSettled(s, p) <==> exists l :: IsSettlement(g, p, l)
  {
    if x :| x in s && x.payable == p {
      RunMeans(g, s, d, after, p, x.line);
    }
    if l :| IsSettlement(g, p, l) {
      RunMeans(g, s, d, after, p, l);
    }
  }

  lemma PaidMeans(g: Setting, s: seq<Settling.Settlement>, d: seq<Settling.Settlement>, after: Settling.State, p: Payable)
    requires IsRunIn(g, s, d, after) && IsUnambiguous(g, p)
    ensures Settling.IsSettled(s, p) <==> exists l :: IsPaymentOf(g, p, l)
  {
    Settling.SettledExactlyWhen(PolicyOf(g), g.bankLines, g.before, s, d, after, p);
    Settling.UnmatchedOutgoingIsAscending(g.bankLines, g.before.reconciled);
    UniqueMeans(g, p);
    forall l
      ensures l in g.bankLines && l.amountOre < 0 && l.id !in g.before.reconciled && Settling.Pays(PolicyOf(g), p, l) <==> IsPaymentOf(g, p, l)
    {
      PaymentMeans(g, p, l);
    }
  }

  lemma BalanceAfter(before: seq<Payable>, after: seq<Payable>, s: seq<Settling.Settlement>, p: Payable)
    requires Settling.IsAfterSettlements(before, after, s) && p in before
    ensures (if Settling.IsSettled(s, p) then p.(openOre := 0) else p) in after
  {
    var i :| 0 <= i < |before| && before[i] == p;
    assert after[i] in after;
  }

  /** A creditor with a balance that no other has is settled exactly when some free kroner line takes
      that amount out, names it and is accepted; no other creditor is. What is settled has nothing
      left to pay, and what is not is as it was. */
  lemma KronerPaymentsSettle(g: Setting, s: seq<Settling.Settlement>, d: seq<Settling.Settlement>, after: Settling.State, p: Payable)
    requires IsRunIn(g, s, d, after) && p in g.before.payables
    ensures Settling.IsSettled(s, p) <==> exists l :: IsSettlement(g, p, l)
    ensures Settling.IsSettled(s, p) <==> IsUnambiguous(g, p) && exists l :: IsPaymentOf(g, p, l)
    ensures (if Settling.IsSettled(s, p) then p.(openOre := 0) else p) in after.payables
  {
    SettledMeans(g, s, d, after, p);
    if IsUnambiguous(g, p) {
      PaidMeans(g, s, d, after, p);
    }
    BalanceAfter(g.before.payables, after.payables, s, p);
  }

  // --- The report ---

  ghost predicate IsMatchFor(x: PayableMatch, p: Payable, l: BankLine) {
    x == PayableMatch(p.payableId, p.documentId, l.id, if p.supplierName.Some? then p.supplierName.value else "ukendt", p.openOre)
  }

  lemma ListedMatches(s: seq<Settling.Settlement>, x: PayableMatch)
    ensures x in Map(Settling.MatchOf, s) <==> exists p, l :: Settling.Settlement(p, l) in s && IsMatchFor(x, p, l)
  {
    InMap(Settling.MatchOf, s, x);
    if y :| y in s && Settling.MatchOf(y) == x {
      assert Settling.Settlement(y.payable, y.line) in s && IsMatchFor(x, y.payable, y.line);
    }
    if p, l :| Settling.Settlement(p, l) in s && IsMatchFor(x, p, l) {
      assert Settling.MatchOf(Settling.Settlement(p, l)) == x;
    }
  }

  lemma ListedDoubts(d: seq<Settling.Settlement>, x: AgentException)
    ensures x in Map(Settling.DoubtOf, d) <==>
      exists p, l :: Settling.Settlement(p, l) in d && x == PayableMatchUncertain(l.id, p.documentId, p.payableId)
  {
    InMap(Settling.DoubtOf, d, x);
    if y :| y in d && Settling.DoubtOf(y) == x {
      assert Settling.Settlement(y.payable, y.line) in d;
    }
    if p, l :| Settling.Settlement(p, l) in d && x == PayableMatchUncertain(l.id, p.documentId, p.payableId) {
      assert Settling.DoubtOf(Settling.Settlement(p, l)) == x;
    }
  }

  /** By line id, the report lists exactly the settlements, each with its creditor, document, line, supplier and amount. */
  lemma MatchesAreReported(g: Setting, s: seq<Settling.Settlement>, d: seq<Settling.Settlement>, after: Settling.State, x: PayableMatch)
    returns (more: seq<PayableMatch>)
    requires IsRunIn(g, s, d, after)
    ensures after.matched == g.before.matched + more
    ensures forall i, j :: 0 <= i < j < |more| ==> more[i].bankTransactionId < more[j].bankTransactionId
    ensures x in more <==> exists p, l :: IsSettlement(g, p, l) && IsMatchFor(x, p, l)
  {
    more := Map(Settling.MatchOf, s);
    ListedMatches(s, x);
    forall p, l ensures Settling.Settlement(p, l) in s <==> IsSettlement(g, p, l) {
      RunMeans(g, s, d, after, p, l);
    }
  }

  /** By line id, the exceptions list exactly the doubts, each with its line, document and creditor. */
  lemma DoubtsAreReported(g: Setting, s: seq<Settling.Settlement>, d: seq<Settling.Settlement>, after: Settling.State, x: AgentException)
    returns (more: seq<AgentException>)
    requires IsRunIn(g, s, d, after)
    ensures after.exceptions == g.before.exceptions + more
    ensures forall i, j :: 0 <= i < j < |more| ==> more[i].bankTransactionId < more[j].bankTransactionId
    ensures x in more <==> exists p, l :: IsDoubt(g, p, l) && x == PayableMatchUncertain(l.id, p.documentId, p.payableId)
  {
    more := Map(Settling.DoubtOf, d);
    ListedDoubts(d, x);
    forall p, l ensures Settling.Settlement(p, l) in d <==> IsDoubt(g, p, l) {
      RunMeans(g, s, d, after, p, l);
    }
  }

  /** A line in another currency settles nothing and is not surfaced. */
  lemma OtherCurrenciesAreLeft(g: Setting, s: seq<Settling.Settlement>, d: seq<Settling.Settlement>, after: Settling.State, l: BankLine)
    requires IsRunIn(g, s, d, after) && !IsKroner(g.m, l.currency)
    ensures forall x :: x in s || x in d ==> x.line != l
  {
    forall x | x in s || x in d ensures x.line != l {
      RunMeans(g, s, d, after, x.payable, x.line);
    }
  }
}
