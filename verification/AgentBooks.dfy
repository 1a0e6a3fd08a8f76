/** The state the agent run works on: the company ledger and the report of the run
    (src/agent/loop.ts). The ledger calls are those of src/core/payables.ts and
    src/core/expense-booking.ts, as far as the agent depends on them. */
module AgentBooks {
  import opened Options
  import opened PayableMatching

  /** The judgements the run depends on: which currencies are kroner, which bank lines name which
      creditor, and what the ledger decides beyond its guards, namely whether it posts a payment
      that is otherwise in order, `acceptsPayment(payableId, bankTransactionId)`, and a booking
      that is otherwise in order, `acceptsBooking(documentId, bankTransactionId)`. */
  datatype Policy = Policy(
    isDkk: Option<string> -> bool,
    corroborates: (BankLine, Payable) -> bool,
    acceptsPayment: (int, int) -> bool,
    acceptsBooking: (int, int) -> bool)

  /** The text judgements of the program. */
  function PolicyFor(m: Matcher, acceptsPayment: (int, int) -> bool, acceptsBooking: (int, int) -> bool): Policy {
    Policy(m.IsDkk, m.Corroborates, acceptsPayment, acceptsBooking)
  }

  datatype PayableMatch = PayableMatch(payableId: int, documentId: int, bankTransactionId: int, supplier: string, amountOre: int)

  datatype BookedExpense = BookedExpense(
    documentId: int, bankTransactionId: int, supplier: string, amountOre: int,
    expenseAccount: string, vatTreatment: VatTreatment, category: string)

  datatype VatTreatment = Standard | ReverseCharge | Representation | Exempt

  /** What is surfaced for a human. */
  datatype AgentException =
    | LowConfidenceMatch(bankTransactionId: int, documentId: int)
    | NoAccountRule(bankTransactionId: int, documentId: int)
    | PossibleFixedAsset(bankTransactionId: int, documentId: int)
    | BookingBlocked(bankTransactionId: int, documentId: int)
    | PayableMatchUncertain(bankTransactionId: int, documentId: int, payableId: int)

  class Report {
    var expensesBooked: seq<BookedExpense>
    var payablesMatched: seq<PayableMatch>
    var exceptions: seq<AgentException>

    constructor ()
      ensures expensesBooked == [] && payablesMatched == [] && exceptions == []
    {
      expensesBooked, payablesMatched, exceptions := [], [], [];
    }
  }

  ghost predicate DistinctIds(payables: seq<Payable>) {
    forall i, j :: 0 <= i < j < |payables| ==> payables[i].payableId != payables[j].payableId
  }

  ghost predicate DistinctLines(lines: seq<BankLine>) {
    forall i, j :: 0 <= i < j < |lines| ==> lines[i].id != lines[j].id
  }

  function FindPayable(payables: seq<Payable>, id: int): (r: Option<Payable>)
    ensures r.Some? ==> r.value in payables && r.value.payableId == id
    ensures r.None? ==> forall p :: p in payables ==> p.payableId != id
  {
    if payables == [] then None
    else if payables[0].payableId == id then Some(payables[0])
    else FindPayable(payables[1..], id)
  }

  function FindLine(lines: seq<BankLine>, id: int): (r: Option<BankLine>)
    ensures r.Some? ==> r.value in lines && r.value.id == id
    ensures r.None? ==> forall l :: l in lines ==> l.id != id
  {
    if lines == [] then None
    else if lines[0].id == id then Some(lines[0])
    else FindLine(lines[1..], id)
  }

  lemma PayableIsIdentified(payables: seq<Payable>, p: Payable)
    requires DistinctIds(payables) && p in payables
    ensures forall q :: q in payables && q.payableId == p.payableId ==> q == p
  {
  }

  lemma LineIsIdentified(lines: seq<BankLine>, l: BankLine)
    requires DistinctLines(lines) && l in lines
    ensures forall k :: k in lines && k.id == l.id ==> k == l
  {
  }

  /** A payment of `ore` on one of the payables leaves the others as they were. */
  ghost predicate IsAfterPayment(before: seq<Payable>, after: seq<Payable>, id: int, ore: int) {
    && |after| == |before|
    && forall i :: 0 <= i < |before| ==>
      after[i] == if before[i].payableId == id then before[i].(openOre := before[i].openOre - ore) else before[i]
  }

  function Pay(payables: seq<Payable>, id: int, ore: int): (r: seq<Payable>)
    ensures IsAfterPayment(payables, r, id, ore)
  {
    if payables == [] then []
    else
      [if payables[0].payableId == id then payables[0].(openOre := payables[0].openOre - ore) else payables[0]]
      + Pay(payables[1..], id, ore)
  }

  /** `payables` holds the running balances; `reconciled` the bank lines with a reconciliation row;
      `bookedDocuments` the documents with a posting. */
  class Ledger {
    const policy: Policy
    const bankLines: seq<BankLine>
    var payables: seq<Payable>
    var reconciled: set<int>
    var bookedDocuments: set<int>

    constructor (policy: Policy, bankLines: seq<BankLine>, payables: seq<Payable>, reconciled: set<int>, bookedDocuments: set<int>)
      requires DistinctIds(payables) && DistinctLines(bankLines)
      ensures Valid()
      ensures this.policy == policy && this.bankLines == bankLines && this.payables == payables
      ensures this.reconciled == reconciled && this.bookedDocuments == bookedDocuments
    {
      this.policy, this.bankLines, this.payables := policy, bankLines, payables;
      this.reconciled, this.bookedDocuments := reconciled, bookedDocuments;
    }

    ghost predicate Valid()
      reads this
    {
      DistinctIds(payables) && DistinctLines(bankLines)
    }

    ghost predicate CanPay(p: Payable, l: BankLine)
      reads this
    {
      && l.amountOre < 0 && policy.isDkk(l.currency)
      && l.id !in reconciled
      && 0 < p.openOre && -l.amountOre <= p.openOre
      && policy.acceptsPayment(p.payableId, l.id)
    }

    /** Applies an outgoing bank line to a creditor item: refused, changing nothing, when either
        is unknown or a guard fires. */
    method PayPayableFromBank(payableId: int, bankTransactionId: int) returns (ok: bool)
      requires Valid()
      modifies this`payables, this`reconciled
      ensures Valid()
      ensures forall p, l :: p in old(payables) && l in bankLines && p.payableId == payableId && l.id == bankTransactionId ==>
        ok == old(CanPay(p, l)) && (ok ==> IsAfterPayment(old(payables), payables, payableId, -l.amountOre))
      ensures (forall p :: p in old(payables) ==> p.payableId != payableId) ==> !ok
      ensures (forall l :: l in bankLines ==> l.id != bankTransactionId) ==> !ok
      ensures !ok ==> payables == old(payables) && reconciled == old(reconciled)
      ensures ok ==> reconciled == old(reconciled) + {bankTransactionId}
    {
      ok := false;
      var payable, bank := FindPayable(payables, payableId), FindLine(bankLines, bankTransactionId);
      if payable.None? || bank.None? {
        return;
      }
      var p, l := payable.value, bank.value;
      PayableIsIdentified(payables, p);
      LineIsIdentified(bankLines, l);
      if !(l.amountOre < 0) || !policy.isDkk(l.currency) || l.id in reconciled
        || !(p.openOre > 0) || -l.amountOre > p.openOre || !policy.acceptsPayment(p.payableId, l.id)
      {
        return;
      }
      payables := Pay(payables, payableId, -l.amountOre);
      reconciled := reconciled + {bankTransactionId};
      ok := true;
    }

    ghost predicate CanBook(documentId: int, l: BankLine)
      reads this
    {
      && l.amountOre < 0
      && l.id !in reconciled && documentId !in bookedDocuments
      && policy.acceptsBooking(documentId, l.id)
    }

    /** Books a purchase document against an outgoing bank line: refused, changing nothing, when
        the line is unknown or a guard fires. */
    method BookExpenseFromBank(documentId: int, bankTransactionId: int) returns (ok: bool)
      requires Valid()
      modifies this`reconciled, this`bookedDocuments
      ensures Valid()
      ensures ok <==> exists l :: l in bankLines && l.id == bankTransactionId && old(CanBook(documentId, l))
      ensures !ok ==> reconciled == old(reconciled) && bookedDocuments == old(bookedDocuments)
      ensures ok ==>
        && reconciled == old(reconciled) + {bankTransactionId}
        && bookedDocuments == old(bookedDocuments) + {documentId}
    {
      var l := FindLine(bankLines, bankTransactionId);
      if l.Some? {
        LineIsIdentified(bankLines, l.value);
      }
      if l.None? || !(l.value.amountOre < 0) || bankTransactionId in reconciled || documentId in bookedDocuments
        || !policy.acceptsBooking(documentId, bankTransactionId)
      {
        return false;
      }
      reconciled := reconciled + {bankTransactionId};
      bookedDocuments := bookedDocuments + {documentId};
      return true;
    }
  }
}
