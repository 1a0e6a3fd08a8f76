/** The payables phase of the agent run (src/agent/loop.ts): settle the unambiguous
    creditor payments, surface the doubtful ones.

    `MatchPayables` searches a list it shrinks as it goes. It is proved against a
    relation that mentions neither the order of the list nor the shrinking. */
module PayableSettlement {
  import opened Lists
  import opened Options
  import opened PayableMatching
  import opened AgentBooks
  import opened Sorting

  datatype Settlement = Settlement(payable: Payable, line: BankLine)

  // --- What should happen ---

  /** No other open payable has the same balance. */
  ghost predicate IsUnique(open: seq<Payable>, p: Payable) {
    p in open && forall q :: q in open && q.openOre == p.openOre ==> q == p
  }

  predicate AmountMatches(policy: Policy, p: Payable, l: BankLine) {
    policy.isDkk(l.currency) && l.amountOre < 0 && p.openOre == -l.amountOre
  }

  predicate Pays(policy: Policy, p: Payable, l: BankLine) {
    && AmountMatches(policy, p, l)
    && policy.corroborates(l, p)
    && policy.acceptsPayment(p.payableId, l.id)
  }

  /** `l` settles `p`: the balance of `p` is unique among the open payables, and `l` is the
      line with the lowest id among those that pay it. */
  ghost predicate Settles(policy: Policy, open: seq<Payable>, lines: seq<BankLine>, p: Payable, l: BankLine) {
    && IsUnique(open, p)
    && l in lines && Pays(policy, p, l)
    && forall k :: k in lines && Pays(policy, p, k) ==> l.id <= k.id
  }

  /** `l` is surfaced for a human: only its amount speaks for `p`, and no earlier line settles `p`. */
  ghost predicate IsDoubtful(policy: Policy, open: seq<Payable>, lines: seq<BankLine>, p: Payable, l: BankLine) {
    && IsUnique(open, p)
    && l in lines && AmountMatches(policy, p, l) && !policy.corroborates(l, p)
    && forall k :: k in lines && Pays(policy, p, k) ==> l.id < k.id
  }

  ghost predicate InLineOrder(s: seq<Settlement>) {
    forall i, j :: 0 <= i < j < |s| ==> s[i].line.id < s[j].line.id
  }

  /** `s` lists exactly the settlements, by line id. */
  ghost predicate IsOutcome(policy: Policy, open: seq<Payable>, lines: seq<BankLine>, s: seq<Settlement>) {
    && (forall x :: x in s <==> Settles(policy, open, lines, x.payable, x.line))
    && InLineOrder(s)
  }

  /** `s` lists exactly the doubtful matches, by line id. */
  ghost predicate IsDoubtList(policy: Policy, open: seq<Payable>, lines: seq<BankLine>, s: seq<Settlement>) {
    && (forall x :: x in s <==> IsDoubtful(policy, open, lines, x.payable, x.line))
    && InLineOrder(s)
  }

  /** Line ids are in strictly ascending order. */
  ghost predicate Ascending(lines: seq<BankLine>) {
    forall i, j :: 0 <= i < j < |lines| ==> lines[i].id < lines[j].id
  }

  // --- The shrinking list ---

  ghost predicate IsSettled(s: seq<Settlement>, p: Payable) {
    exists x :: x in s && x.payable == p
  }

  /** The payables left to search once `s` has been settled. */
  ghost predicate IsLeft(open: seq<Payable>, s: seq<Settlement>, rows: seq<Payable>) {
    && DistinctIds(rows)
    && forall p :: p in rows <==> p in open && !IsSettled(s, p)
  }

  /** Only payables with a unique balance have been settled. */
  ghost predicate OnlyUnique(open: seq<Payable>, s: seq<Settlement>) {
    forall x :: x in s ==> IsUnique(open, x.payable)
  }

  lemma OutcomeIsUnique(policy: Policy, open: seq<Payable>, lines: seq<BankLine>, s: seq<Settlement>)
    requires IsOutcome(policy, open, lines, s)
    ensures OnlyUnique(open, s)
  {
  }

  function Candidates(rows: seq<Payable>, ore: int): (c: seq<Payable>)
    ensures forall p :: p in c <==> p in rows && p.openOre == ore
    ensures DistinctIds(rows) ==> DistinctIds(c)
  {
    if rows == [] then []
    else
      var c := Candidates(rows[1..], ore);
      assert rows == [rows[0]] + rows[1..];
      assert DistinctIds(rows) ==> forall p :: p in c ==> p.payableId != rows[0].payableId;
      if rows[0].openOre == ore then [rows[0]] + c else c
  }

  lemma {:induction false} NoCandidates(rows: seq<Payable>, ore: int)
    requires forall q :: q in rows ==> q.openOre != ore
    ensures Candidates(rows, ore) == []
  {
    if rows != [] {
      assert rows[0] in rows;
      NoCandidates(rows[1..], ore);
    }
  }

  lemma {:induction false} OnlyCandidate(rows: seq<Payable>, p: Payable)
    requires DistinctIds(rows) && p in rows && forall q :: q in rows && q.openOre == p.openOre ==> q == p
    ensures Candidates(rows, p.openOre) == [p]
  {
    assert rows == [rows[0]] + rows[1..];
    if rows[0] == p {
      assert p !in rows[1..];
      NoCandidates(rows[1..], p.openOre);
    } else {
      OnlyCandidate(rows[1..], p);
    }
  }

  lemma TwoWithOneBalance(open: seq<Payable>, p: Payable)
    requires p in open && !IsUnique(open, p)
    ensures exists q :: q in open && q.openOre == p.openOre && q != p && !IsUnique(open, q)
  {
    var q :| q in open && q.openOre == p.openOre && q != p;
    assert !IsUnique(open, q);
  }

  /** A single candidate had a unique balance from the start: an ambiguous amount stays ambiguous. */
  lemma CandidateWasUnique(open: seq<Payable>, s: seq<Settlement>, rows: seq<Payable>, ore: int, p: Payable)
    requires OnlyUnique(open, s) && IsLeft(open, s, rows) && Candidates(rows, ore) == [p]
    ensures IsUnique(open, p) && p.openOre == ore && !IsSettled(s, p)
  {
    var c := Candidates(rows, ore);
    assert p in c;
    assert forall q :: q in c ==> q == p;
    assert forall q :: q in open && q.openOre == ore && !IsUnique(open, q) ==> q in c;
    if !IsUnique(open, p) {
      TwoWithOneBalance(open, p);
    }
  }

  /** A payable with a unique balance is the single candidate until it is settled. */
  lemma UniqueIsCandidate(open: seq<Payable>, s: seq<Settlement>, rows: seq<Payable>, p: Payable)
    requires IsLeft(open, s, rows) && IsUnique(open, p) && !IsSettled(s, p)
    ensures Candidates(rows, p.openOre) == [p]
  {
    OnlyCandidate(rows, p);
  }

  // --- One more line ---

  ghost predicate HasPayer(policy: Policy, lines: seq<BankLine>, p: Payable) {
    exists l :: l in lines && Pays(policy, p, l)
  }

  /** Among the lines that pay `p` there is a first one. */
  lemma {:induction false} FirstPayer(policy: Policy, lines: seq<BankLine>, p: Payable) returns (l: BankLine)
    requires Ascending(lines) && HasPayer(policy, lines, p)
    ensures l in lines && Pays(policy, p, l) && forall k :: k in lines && Pays(policy, p, k) ==> l.id <= k.id
  {
    assert lines == [lines[0]] + lines[1..];
    if Pays(policy, p, lines[0]) {
      l := lines[0];
    } else {
      l := FirstPayer(policy, lines[1..], p);
    }
  }

  /** A payable with a unique balance is settled as soon as some line pays it. */
  lemma SettledWhenPaid(policy: Policy, open: seq<Payable>, lines: seq<BankLine>, s: seq<Settlement>, p: Payable)
    requires IsOutcome(policy, open, lines, s) && Ascending(lines) && IsUnique(open, p)
    ensures IsSettled(s, p) <==> HasPayer(policy, lines, p)
  {
    if HasPayer(policy, lines, p) {
      var l := FirstPayer(policy, lines, p);
      assert Settlement(p, l) in s;
    }
  }

  lemma OneMoreLine(lines: seq<BankLine>, k: nat)
    requires k < |lines| && Ascending(lines)
    ensures Ascending(lines[..k]) && Ascending(lines[..k+1])
    ensures forall l :: l in lines[..k+1] <==> l in lines[..k] || l == lines[k]
    ensures forall l :: l in lines[..k] ==> l.id < lines[k].id
  {
    assert lines[..k+1] == lines[..k] + [lines[k]];
  }

  lemma OutcomeGrows(policy: Policy, open: seq<Payable>, lines: seq<BankLine>, k: nat, s: seq<Settlement>, p: Payable)
    requires k < |lines| && Ascending(lines) && IsOutcome(policy, open, lines[..k], s)
    requires IsUnique(open, p) && Pays(policy, p, lines[k]) && !IsSettled(s, p)
    ensures IsOutcome(policy, open, lines[..k+1], s + [Settlement(p, lines[k])])
  {
    var l := lines[k];
    var t := s + [Settlement(p, l)];
    OneMoreLine(lines, k);
    SettledWhenPaid(policy, open, lines[..k], s, p);
    forall x ensures x in t <==> Settles(policy, open, lines[..k+1], x.payable, x.line) {
      assert x in t <==> x in s || x == Settlement(p, l);
      if Settles(policy, open, lines[..k+1], x.payable, x.line) && x.line == l {
        assert x.payable.openOre == p.openOre;
      }
    }
    assert forall x :: x in s ==> x.line in lines[..k];
    assert forall i :: 0 <= i < |s| ==> s[i] in s && s[i].line.id < l.id;
  }

  lemma OutcomeStays(policy: Policy, open: seq<Payable>, lines: seq<BankLine>, k: nat, s: seq<Settlement>)
    requires k < |lines| && Ascending(lines) && IsOutcome(policy, open, lines[..k], s)
    requires forall p :: IsUnique(open, p) && Pays(policy, p, lines[k]) ==> IsSettled(s, p)
    ensures IsOutcome(policy, open, lines[..k+1], s)
  {
    var l := lines[k];
    OneMoreLine(lines, k);
    forall x ensures x in s <==> Settles(policy, open, lines[..k+1], x.payable, x.line) {
      if Settles(policy, open, lines[..k+1], x.payable, x.line) && x.line == l {
        SettledWhenPaid(policy, open, lines[..k], s, x.payable);
      }
    }
  }

  lemma DoubtsGrow(policy: Policy, open: seq<Payable>, lines: seq<BankLine>, k: nat, s: seq<Settlement>, d: seq<Settlement>, p: Payable)
    requires k < |lines| && Ascending(lines) && IsOutcome(policy, open, lines[..k], s) && IsDoubtList(policy, open, lines[..k], d)
    requires IsUnique(open, p) && AmountMatches(policy, p, lines[k]) && !policy.corroborates(lines[k], p) && !IsSettled(s, p)
    ensures IsDoubtList(policy, open, lines[..k+1], d + [Settlement(p, lines[k])])
  {
    var l := lines[k];
    var t := d + [Settlement(p, l)];
    OneMoreLine(lines, k);
    SettledWhenPaid(policy, open, lines[..k], s, p);
    forall x ensures x in t <==> IsDoubtful(policy, open, lines[..k+1], x.payable, x.line) {
      assert x in t <==> x in d || x == Settlement(p, l);
      if IsDoubtful(policy, open, lines[..k+1], x.payable, x.line) && x.line == l {
        assert x.payable.openOre == p.openOre;
      }
    }
    assert forall x :: x in d ==> x.line in lines[..k];
    assert forall i :: 0 <= i < |d| ==> d[i] in d && d[i].line.id < l.id;
  }

  lemma DoubtsStay(policy: Policy, open: seq<Payable>, lines: seq<BankLine>, k: nat, s: seq<Settlement>, d: seq<Settlement>)
    requires k < |lines| && Ascending(lines) && IsOutcome(policy, open, lines[..k], s) && IsDoubtList(policy, open, lines[..k], d)
    requires forall p :: IsUnique(open, p) && AmountMatches(policy, p, lines[k]) && !policy.corroborates(lines[k], p) ==> IsSettled(s, p)
    ensures IsDoubtList(policy, open, lines[..k+1], d)
  {
    var l := lines[k];
    OneMoreLine(lines, k);
    forall x ensures x in d <==> IsDoubtful(policy, open, lines[..k+1], x.payable, x.line) {
      if IsDoubtful(policy, open, lines[..k+1], x.payable, x.line) && x.line == l {
        SettledWhenPaid(policy, open, lines[..k], s, x.payable);
      }
    }
  }

  // --- The ledger and the report follow the outcome ---

  /** The open creditor items. */
  function Open(payables: seq<Payable>): (r: seq<Payable>)
    ensures forall p :: p in r <==> p in payables && p.openOre > 0
    ensures DistinctIds(payables) ==> DistinctIds(r)
  {
    if payables == [] then []
    else
      var r := Open(payables[1..]);
      assert payables == [payables[0]] + payables[1..];
      assert DistinctIds(payables) ==> forall p :: p in r ==> p.payableId != payables[0].payableId;
      if payables[0].openOre > 0 then [payables[0]] + r else r
  }

  function LineId(l: BankLine): int { l.id }

  function SelectOutgoing(lines: seq<BankLine>, reconciled: set<int>): (r: seq<BankLine>)
    ensures forall l :: l in r <==> l in lines && l.amountOre < 0 && l.id !in reconciled
    ensures DistinctLines(lines) ==> DistinctLines(r)
  {
    if lines == [] then []
    else
      var r := SelectOutgoing(lines[1..], reconciled);
      assert lines == [lines[0]] + lines[1..];
      assert DistinctLines(lines) ==> forall l :: l in r ==> l.id != lines[0].id;
      if lines[0].amountOre < 0 && lines[0].id !in reconciled then [lines[0]] + r else r
  }

  /** The outgoing bank lines without a reconciliation row, by id. */
  function UnmatchedOutgoing(lines: seq<BankLine>, reconciled: set<int>): seq<BankLine> {
    Sort(SelectOutgoing(lines, reconciled), LineId, IntLe)
  }

  lemma UnmatchedOutgoingIsAscending(lines: seq<BankLine>, reconciled: set<int>)
    requires DistinctLines(lines)
    ensures var r := UnmatchedOutgoing(lines, reconciled);
      && Ascending(r)
      && forall l :: l in r <==> l in lines && l.amountOre < 0 && l.id !in reconciled
  {
    var q := SelectOutgoing(lines, reconciled);
    var r := UnmatchedOutgoing(lines, reconciled);
    IntLeIsTotal();
    SortIsSorted(q, LineId, IntLe);
    forall l ensures l in r <==> l in q {
      SameElements(r, q, l);
    }
    assert DistinctKeys(q, LineId);
    SortKeepsDistinctKeys(q, LineId, IntLe);
    forall i, j | 0 <= i < j < |r| ensures r[i].id < r[j].id {
      assert IntLe(LineId(r[i]), LineId(r[j])) && LineId(r[i]) != LineId(r[j]);
    }
  }

  /** The settled payables have nothing left to pay, the others are as they were. */
  ghost predicate IsAfterSettlements(before: seq<Payable>, after: seq<Payable>, s: seq<Settlement>) {
    && |after| == |before|
    && forall i :: 0 <= i < |before| ==>
      after[i] == if IsSettled(s, before[i]) then before[i].(openOre := 0) else before[i]
  }

  ghost function LineIds(s: seq<Settlement>): set<int> {
    set x | x in s :: x.line.id
  }

  lemma LineIdsOneMore(s: seq<Settlement>, x: Settlement)
    ensures LineIds(s + [x]) == LineIds(s) + {x.line.id}
  {
    assert forall y :: y in s + [x] <==> y in s || y == x;
    assert x in s + [x];
  }

  function MatchOf(x: Settlement): PayableMatch {
    PayableMatch(x.payable.payableId, x.payable.documentId, x.line.id, GetOr(x.payable.supplierName, "ukendt"), x.payable.openOre)
  }

  function DoubtOf(x: Settlement): AgentException {
    PayableMatchUncertain(x.line.id, x.payable.documentId, x.payable.payableId)
  }

  /** `rows.splice(rows.indexOf(p), 1)` */
  function Without(rows: seq<Payable>, p: Payable): seq<Payable> {
    if rows == [] then [] else if rows[0] == p then rows[1..] else [rows[0]] + Without(rows[1..], p)
  }

  lemma {:induction false} WithoutRemoves(rows: seq<Payable>, p: Payable)
    requires DistinctIds(rows)
    ensures DistinctIds(Without(rows, p)) && forall q :: q in Without(rows, p) <==> q in rows && q != p
  {
    if rows != [] {
      WithoutRemoves(rows[1..], p);
      assert rows == [rows[0]] + rows[1..];
      assert forall q :: q in rows[1..] ==> q.payableId != rows[0].payableId;
    }
  }

  lemma OneMoreSettled(s: seq<Settlement>, p: Payable, l: BankLine, q: Payable)
    ensures IsSettled(s + [Settlement(p, l)], q) <==> IsSettled(s, q) || q == p
  {
    var t := s + [Settlement(p, l)];
    assert forall x :: x in t <==> x in s || x == Settlement(p, l);
    if IsSettled(s, q) {
      var x :| x in s && x.payable == q;
      assert x in t;
    }
    if q == p {
      assert Settlement(p, l) in t;
    }
  }

  lemma LeftShrinks(open: seq<Payable>, s: seq<Settlement>, rows: seq<Payable>, p: Payable, l: BankLine)
    requires IsLeft(open, s, rows)
    ensures IsLeft(open, s + [Settlement(p, l)], Without(rows, p))
  {
    WithoutRemoves(rows, p);
    forall q ensures q in Without(rows, p) <==> q in open && !IsSettled(s + [Settlement(p, l)], q) {
      OneMoreSettled(s, p, l, q);
    }
  }

  lemma UnsettledIsAsItWas(before: seq<Payable>, now: seq<Payable>, s: seq<Settlement>, p: Payable)
    requires p in before && !IsSettled(s, p) && IsAfterSettlements(before, now, s)
    ensures p in now
  {
    var k :| 0 <= k < |before| && before[k] == p;
    assert now[k] == p;
  }

  lemma PaymentSettles(before: seq<Payable>, now: seq<Payable>, next: seq<Payable>, s: seq<Settlement>, p: Payable, l: BankLine)
    requires DistinctIds(before) && p in before && !IsSettled(s, p) && p.openOre == -l.amountOre
    requires IsAfterSettlements(before, now, s) && IsAfterPayment(now, next, p.payableId, -l.amountOre)
    ensures IsAfterSettlements(before, next, s + [Settlement(p, l)])
  {
    PayableIsIdentified(before, p);
    forall i | 0 <= i < |before|
      ensures next[i] == if IsSettled(s + [Settlement(p, l)], before[i]) then before[i].(openOre := 0) else before[i]
    {
      OneMoreSettled(s, p, l, before[i]);
      assert before[i] in before;
    }
  }

  // --- The loop ---

  /** What the loop knows after the first `k` lines. */
  ghost predicate Progress(policy: Policy, open: seq<Payable>, lines: seq<BankLine>, k: nat, s: seq<Settlement>, d: seq<Settlement>, rows: seq<Payable>) {
    && Ascending(lines) && k <= |lines|
    && IsOutcome(policy, open, lines[..k], s)
    && IsDoubtList(policy, open, lines[..k], d)
    && IsLeft(open, s, rows)
  }

  /** The line is foreign, or its amount has no candidate or several. */
  lemma SkipLine(policy: Policy, open: seq<Payable>, lines: seq<BankLine>, k: nat, s: seq<Settlement>, d: seq<Settlement>, rows: seq<Payable>)
    requires Progress(policy, open, lines, k, s, d, rows) && k < |lines|
    requires !policy.isDkk(lines[k].currency) || |Candidates(rows, -lines[k].amountOre)| != 1
    ensures Progress(policy, open, lines, k + 1, s, d, rows)
  {
    forall p | IsUnique(open, p) && AmountMatches(policy, p, lines[k]) ensures IsSettled(s, p) {
      if !IsSettled(s, p) {
        UniqueIsCandidate(open, s, rows, p);
      }
    }
    OutcomeStays(policy, open, lines, k, s);
    DoubtsStay(policy, open, lines, k, s, d);
  }

  lemma CandidateIsOpen(policy: Policy, open: seq<Payable>, lines: seq<BankLine>, k: nat, s: seq<Settlement>, d: seq<Settlement>, rows: seq<Payable>, p: Payable)
    requires Progress(policy, open, lines, k, s, d, rows) && k < |lines| && Candidates(rows, -lines[k].amountOre) == [p]
    ensures IsUnique(open, p) && p.openOre == -lines[k].amountOre && !IsSettled(s, p)
  {
    OutcomeIsUnique(policy, open, lines[..k], s);
    CandidateWasUnique(open, s, rows, -lines[k].amountOre, p);
  }

  lemma DoubtLine(policy: Policy, open: seq<Payable>, lines: seq<BankLine>, k: nat, s: seq<Settlement>, d: seq<Settlement>, rows: seq<Payable>, p: Payable)
    requires Progress(policy, open, lines, k, s, d, rows) && k < |lines| && Candidates(rows, -lines[k].amountOre) == [p]
    requires AmountMatches(policy, p, lines[k]) && !policy.corroborates(lines[k], p)
    ensures Progress(policy, open, lines, k + 1, s, d + [Settlement(p, lines[k])], rows)
  {
    CandidateIsOpen(policy, open, lines, k, s, d, rows, p);
    OutcomeStays(policy, open, lines, k, s);
    DoubtsGrow(policy, open, lines, k, s, d, p);
  }

  lemma RefuseLine(policy: Policy, open: seq<Payable>, lines: seq<BankLine>, k: nat, s: seq<Settlement>, d: seq<Settlement>, rows: seq<Payable>, p: Payable)
    requires Progress(policy, open, lines, k, s, d, rows) && k < |lines| && Candidates(rows, -lines[k].amountOre) == [p]
    requires policy.corroborates(lines[k], p) && !policy.acceptsPayment(p.payableId, lines[k].id)
    ensures Progress(policy, open, lines, k + 1, s, d, rows)
  {
    CandidateIsOpen(policy, open, lines, k, s, d, rows, p);
    OutcomeStays(policy, open, lines, k, s);
    DoubtsStay(policy, open, lines, k, s, d);
  }

  lemma SettleLine(policy: Policy, open: seq<Payable>, lines: seq<BankLine>, k: nat, s: seq<Settlement>, d: seq<Settlement>, rows: seq<Payable>, p: Payable)
    requires Progress(policy, open, lines, k, s, d, rows) && k < |lines| && Candidates(rows, -lines[k].amountOre) == [p]
    requires Pays(policy, p, lines[k])
    ensures Progress(policy, open, lines, k + 1, s + [Settlement(p, lines[k])], d, Without(rows, p))
  {
    CandidateIsOpen(policy, open, lines, k, s, d, rows, p);
    OutcomeGrows(policy, open, lines, k, s, p);
    DoubtsStay(policy, open, lines, k, s, d);
    LeftShrinks(open, s, rows, p, lines[k]);
  }

  /** A line not yet reached is not reconciled. */
  lemma LineIsFree(policy: Policy, open: seq<Payable>, lines: seq<BankLine>, k: nat, s: seq<Settlement>)
    requires Ascending(lines) && k < |lines| && IsOutcome(policy, open, lines[..k], s)
    ensures lines[k].id !in LineIds(s)
  {
    OneMoreLine(lines, k);
  }

  /** What became of one line. */
  datatype Verdict = Skipped | Doubted(payable: Payable) | Refused(payable: Payable) | Paid(payable: Payable)

  ghost predicate IsVerdict(policy: Policy, rows: seq<Payable>, l: BankLine, v: Verdict) {
    match v
    case Skipped => !policy.isDkk(l.currency) || |Candidates(rows, -l.amountOre)| != 1
    case Doubted(p) => AmountMatches(policy, p, l) && Candidates(rows, -l.amountOre) == [p] && !policy.corroborates(l, p)
    case Refused(p) =>
      && AmountMatches(policy, p, l) && Candidates(rows, -l.amountOre) == [p]
      && policy.corroborates(l, p) && !policy.acceptsPayment(p.payableId, l.id)
    case Paid(p) => Pays(policy, p, l) && Candidates(rows, -l.amountOre) == [p]
  }

  /** The part of the ledger and the report that the phase writes. */
  datatype State = State(payables: seq<Payable>, reconciled: set<int>, matched: seq<PayableMatch>, exceptions: seq<AgentException>)

  /** The effect of one verdict. */
  ghost predicate IsStep(now: State, next: State, l: BankLine, v: Verdict) {
    && next.matched == now.matched + (if v.Paid? then [MatchOf(Settlement(v.payable, l))] else [])
    && next.exceptions == now.exceptions + (if v.Doubted? then [DoubtOf(Settlement(v.payable, l))] else [])
    && (v.Paid? ==> IsAfterPayment(now.payables, next.payables, v.payable.payableId, -l.amountOre))
    && (!v.Paid? ==> next.payables == now.payables)
    && next.reconciled == now.reconciled + if v.Paid? then {l.id} else {}
  }

  /** The body of the loop. */
  method MatchLine(db: Ledger, report: Report, bank: BankLine, rows: seq<Payable>) returns (rows': seq<Payable>, v: Verdict)
    requires db.Valid() && bank in db.bankLines && bank.amountOre < 0 && bank.id !in db.reconciled
    requires forall p :: p in rows ==> p in db.payables && p.openOre > 0
    modifies db`payables, db`reconciled, report`payablesMatched, report`exceptions
    ensures db.Valid() && IsVerdict(db.policy, rows, bank, v)
    ensures rows' == if v.Paid? then Without(rows, v.payable) else rows
    ensures IsStep(
      old(State(db.payables, db.reconciled, report.payablesMatched, report.exceptions)),
      State(db.payables, db.reconciled, report.payablesMatched, report.exceptions), bank, v)
  {
    rows', v := rows, Skipped;
    if !db.policy.isDkk(bank.currency) {
      return;
    }
    var absOre := if bank.amountOre < 0 then -bank.amountOre else bank.amountOre;
    var candidates := Candidates(rows, absOre);
    if |candidates| != 1 {
      return;
    }
    var payable := candidates[0];
    assert candidates == [payable] && payable in candidates;
    if !db.policy.corroborates(bank, payable) {
      report.exceptions := report.exceptions + [PayableMatchUncertain(bank.id, payable.documentId, payable.payableId)];
      v := Doubted(payable);
      return;
    }
    assert payable in db.payables && bank in db.bankLines;
    var paid := db.PayPayableFromBank(payable.payableId, bank.id);
    assert paid == old(db.CanPay(payable, bank));
    assert paid ==> IsAfterPayment(old(db.payables), db.payables, payable.payableId, -bank.amountOre);
    if !paid {
      v := Refused(payable);
      return;
    }
    report.payablesMatched := report.payablesMatched + [
      PayableMatch(payable.payableId, payable.documentId, bank.id, GetOr(payable.supplierName, "ukendt"), payable.openOre)];
    rows' := Without(rows, payable);
    v := Paid(payable);
  }

  function Settled(s: seq<Settlement>, l: BankLine, v: Verdict): seq<Settlement> {
    if v.Paid? then s + [Settlement(v.payable, l)] else s
  }

  function Surfaced(d: seq<Settlement>, l: BankLine, v: Verdict): seq<Settlement> {
    if v.Doubted? then d + [Settlement(v.payable, l)] else d
  }

  lemma OneMoreVerdict(policy: Policy, open: seq<Payable>, lines: seq<BankLine>, k: nat, s: seq<Settlement>, d: seq<Settlement>, rows: seq<Payable>, v: Verdict)
    requires Progress(policy, open, lines, k, s, d, rows) && k < |lines| && IsVerdict(policy, rows, lines[k], v)
    ensures Progress(policy, open, lines, k + 1, Settled(s, lines[k], v), Surfaced(d, lines[k], v),
      if v.Paid? then Without(rows, v.payable) else rows)
  {
    match v
    case Skipped => SkipLine(policy, open, lines, k, s, d, rows);
    case Doubted(p) => DoubtLine(policy, open, lines, k, s, d, rows, p);
    case Refused(p) => RefuseLine(policy, open, lines, k, s, d, rows, p);
    case Paid(p) => SettleLine(policy, open, lines, k, s, d, rows, p);
  }

  lemma PaidWasOpen(policy: Policy, open: seq<Payable>, lines: seq<BankLine>, k: nat, s: seq<Settlement>, d: seq<Settlement>, rows: seq<Payable>, v: Verdict)
    requires Progress(policy, open, lines, k, s, d, rows) && k < |lines| && IsVerdict(policy, rows, lines[k], v)
    ensures v.Paid? ==> v.payable in open && !IsSettled(s, v.payable) && v.payable.openOre == -lines[k].amountOre
  {
    if v.Paid? {
      CandidateIsOpen(policy, open, lines, k, s, d, rows, v.payable);
    }
  }

  /** The sum of all balances. */
  function TotalOpen(payables: seq<Payable>): int {
    if payables == [] then 0 else payables[0].openOre + TotalOpen(payables[1..])
  }

  /** The money on the bank lines used by the settlements. */
  function TotalUsed(s: seq<Settlement>): int {
    if s == [] then 0 else TotalUsed(s[..|s|-1]) - s[|s|-1].line.amountOre
  }

  /** Both sums are taken over every element, once. */
  lemma {:induction false} TotalsAdd(a: seq<Payable>, b: seq<Payable>, p: Payable, x: Settlement)
    ensures TotalOpen([p]) == p.openOre && TotalUsed([x]) == -x.line.amountOre
    ensures TotalOpen(a + b) == TotalOpen(a) + TotalOpen(b)
  {
    assert [p][1..] == [] && [x][..0] == [];
    if a == [] {
      assert a + b == b;
    } else {
      TotalsAdd(a[1..], b, p, x);
      assert (a + b)[0] == a[0] && (a + b)[1..] == a[1..] + b;
    }
  }

  lemma UsedOneMore(s: seq<Settlement>, x: Settlement)
    ensures TotalUsed(s + [x]) == TotalUsed(s) - x.line.amountOre
  {
    assert (s + [x])[..|s|] == s;
  }

  lemma {:induction false} PaymentElsewhere(before: seq<Payable>, after: seq<Payable>, id: int, ore: int)
    requires IsAfterPayment(before, after, id, ore) && forall q :: q in before ==> q.payableId != id
    ensures TotalOpen(after) == TotalOpen(before)
  {
    if before != [] {
      assert before[0] in before;
      assert forall q :: q in before[1..] ==> q in before;
      PaymentElsewhere(before[1..], after[1..], id, ore);
    }
  }

  lemma {:induction false} PaymentLowersTotal(before: seq<Payable>, after: seq<Payable>, p: Payable, ore: int)
    requires DistinctIds(before) && p in before && IsAfterPayment(before, after, p.payableId, ore)
    ensures TotalOpen(after) == TotalOpen(before) - ore
  {
    assert before == [before[0]] + before[1..];
    if before[0] == p {
      PaymentElsewhere(before[1..], after[1..], p.payableId, ore);
    } else {
      PaymentLowersTotal(before[1..], after[1..], p, ore);
    }
  }

  lemma PaymentKeepsIds(before: seq<Payable>, after: seq<Payable>, id: int, ore: int)
    requires DistinctIds(before) && IsAfterPayment(before, after, id, ore)
    ensures DistinctIds(after)
  {
  }

  lemma StepKeepsIds(now: State, next: State, l: BankLine, v: Verdict)
    requires DistinctIds(now.payables) && IsStep(now, next, l, v)
    ensures DistinctIds(next.payables)
  {
    if v.Paid? {
      PaymentKeepsIds(now.payables, next.payables, v.payable.payableId, -l.amountOre);
    }
  }

  /** The effect of the settlements `s` and the doubtful matches `d`. */
  ghost predicate IsEffect(before: State, s: seq<Settlement>, d: seq<Settlement>, after: State) {
    && IsAfterSettlements(before.payables, after.payables, s)
    && TotalOpen(after.payables) == TotalOpen(before.payables) - TotalUsed(s)
    && after.reconciled == before.reconciled + LineIds(s)
    && after.matched == before.matched + Map(MatchOf, s)
    && after.exceptions == before.exceptions + Map(DoubtOf, d)
  }

  lemma OneMoreEffect(before: State, s: seq<Settlement>, d: seq<Settlement>, now: State, next: State, l: BankLine, v: Verdict)
    requires DistinctIds(before.payables) && DistinctIds(now.payables) && IsEffect(before, s, d, now) && IsStep(now, next, l, v)
    requires v.Paid? ==> v.payable in before.payables && !IsSettled(s, v.payable) && v.payable.openOre == -l.amountOre
    ensures IsEffect(before, Settled(s, l, v), Surfaced(d, l, v), next)
  {
    if v.Paid? {
      var x := Settlement(v.payable, l);
      PaymentSettles(before.payables, now.payables, next.payables, s, v.payable, l);
      UnsettledIsAsItWas(before.payables, now.payables, s, v.payable);
      PaymentLowersTotal(now.payables, next.payables, v.payable, -l.amountOre);
      UsedOneMore(s, x);
      LineIdsOneMore(s, x);
      AppendMapped(before.matched, MatchOf, s, x);
    } else if v.Doubted? {
      AppendMapped(before.exceptions, DoubtOf, d, Settlement(v.payable, l));
    }
  }

  /** What the loop knows in front of line `k`. */
  ghost predicate LoopState(policy: Policy, bankLines: seq<BankLine>, before: State, k: nat, s: seq<Settlement>, d: seq<Settlement>, rows: seq<Payable>, now: State) {
    && DistinctIds(before.payables) && DistinctIds(now.payables) && DistinctLines(bankLines)
    && Progress(policy, Open(before.payables), UnmatchedOutgoing(bankLines, before.reconciled), k, s, d, rows)
    && IsEffect(before, s, d, now)
  }

  lemma LoopStart(policy: Policy, bankLines: seq<BankLine>, before: State)
    requires DistinctIds(before.payables) && DistinctLines(bankLines)
    ensures LoopState(policy, bankLines, before, 0, [], [], Open(before.payables), before)
  {
    UnmatchedOutgoingIsAscending(bankLines, before.reconciled);
  }

  /** The next line is outgoing and not reconciled, and what is left to search is still open. */
  lemma LineIsReady(policy: Policy, bankLines: seq<BankLine>, before: State, k: nat, s: seq<Settlement>, d: seq<Settlement>, rows: seq<Payable>, now: State)
    requires LoopState(policy, bankLines, before, k, s, d, rows, now) && k < |UnmatchedOutgoing(bankLines, before.reconciled)|
    ensures var l := UnmatchedOutgoing(bankLines, before.reconciled)[k];
      l in bankLines && l.amountOre < 0 && l.id !in now.reconciled
    ensures forall p :: p in rows ==> p in now.payables && p.openOre > 0
  {
    var lines := UnmatchedOutgoing(bankLines, before.reconciled);
    UnmatchedOutgoingIsAscending(bankLines, before.reconciled);
    assert lines[k] in lines;
    LineIsFree(policy, Open(before.payables), lines, k, s);
    forall p | p in rows ensures p in now.payables && p.openOre > 0 {
      UnsettledIsAsItWas(before.payables, now.payables, s, p);
    }
  }

  lemma LoopStep(policy: Policy, bankLines: seq<BankLine>, before: State, k: nat, s: seq<Settlement>, d: seq<Settlement>, rows: seq<Payable>, now: State, v: Verdict, next: State)
    requires LoopState(policy, bankLines, before, k, s, d, rows, now) && k < |UnmatchedOutgoing(bankLines, before.reconciled)|
    requires var l := UnmatchedOutgoing(bankLines, before.reconciled)[k]; IsVerdict(policy, rows, l, v) && IsStep(now, next, l, v)
    ensures var l := UnmatchedOutgoing(bankLines, before.reconciled)[k];
      LoopState(policy, bankLines, before, k + 1, Settled(s, l, v), Surfaced(d, l, v), if v.Paid? then Without(rows, v.payable) else rows, next)
  {
    var open, lines := Open(before.payables), UnmatchedOutgoing(bankLines, before.reconciled);
    assert IsEffect(before, Settled(s, lines[k], v), Surfaced(d, lines[k], v), next) by {
      PaidWasOpen(policy, open, lines, k, s, d, rows, v);
      OneMoreEffect(before, s, d, now, next, lines[k], v);
    }
    assert DistinctIds(next.payables) by {
      StepKeepsIds(now, next, lines[k], v);
    }
    assert Progress(policy, open, lines, k + 1, Settled(s, lines[k], v), Surfaced(d, lines[k], v), if v.Paid? then Without(rows, v.payable) else rows) by {
      OneMoreVerdict(policy, open, lines, k, s, d, rows, v);
    }
  }

  lemma LoopEnd(policy: Policy, bankLines: seq<BankLine>, before: State, s: seq<Settlement>, d: seq<Settlement>, rows: seq<Payable>, now: State)
    requires LoopState(policy, bankLines, before, |UnmatchedOutgoing(bankLines, before.reconciled)|, s, d, rows, now)
    ensures IsRun(policy, bankLines, before, s, d, now)
  {
    var lines := UnmatchedOutgoing(bankLines, before.reconciled);
    assert lines[..|lines|] == lines;
  }

  /** The whole phase: `s` lists exactly the settlements and `d` exactly the doubtful matches, and
      the ledger and the report show them and nothing else. */
  ghost predicate IsRun(policy: Policy, bankLines: seq<BankLine>, before: State, s: seq<Settlement>, d: seq<Settlement>, after: State) {
    var open, lines := Open(before.payables), UnmatchedOutgoing(bankLines, before.reconciled);
    && IsOutcome(policy, open, lines, s)
    && IsDoubtList(policy, open, lines, d)
    && IsEffect(before, s, d, after)
  }

  /** Settles the unambiguous creditor payments, and only those. */
  method MatchPayables(db: Ledger, report: Report) returns (ghost s: seq<Settlement>, ghost d: seq<Settlement>)
    requires db.Valid()
    modifies db`payables, db`reconciled, report`payablesMatched, report`exceptions
    ensures db.Valid()
    ensures IsRun(db.policy, db.bankLines,
      old(State(db.payables, db.reconciled, report.payablesMatched, report.exceptions)), s, d,
      State(db.payables, db.reconciled, report.payablesMatched, report.exceptions))
  {
    s, d := [], [];
    var rows := Open(db.payables);
    var lines := UnmatchedOutgoing(db.bankLines, db.reconciled);
    ghost var before := State(db.payables, db.reconciled, report.payablesMatched, report.exceptions);
    LoopStart(db.policy, db.bankLines, before);
    for k := 0 to |lines|
      invariant db.Valid()
      invariant LoopState(db.policy, db.bankLines, before, k, s, d, rows,
        State(db.payables, db.reconciled, report.payablesMatched, report.exceptions))
    {
      ghost var now, left := State(db.payables, db.reconciled, report.payablesMatched, report.exceptions), rows;
      LineIsReady(db.policy, db.bankLines, before, k, s, d, rows, now);
      var v;
      rows, v := MatchLine(db, report, lines[k], rows);
      ghost var next := State(db.payables, db.reconciled, report.payablesMatched, report.exceptions);
      LoopStep(db.policy, db.bankLines, before, k, s, d, left, now, v, next);
      s, d := Settled(s, lines[k], v), Surfaced(d, lines[k], v);
    }
    LoopEnd(db.policy, db.bankLines, before, s, d, rows,
      State(db.payables, db.reconciled, report.payablesMatched, report.exceptions));
  }

  // --- The outcome does not depend on any order ---

  function IdOf(x: Settlement): int { x.line.id }

  lemma SameSettlements(s: seq<Settlement>, t: seq<Settlement>)
    requires InLineOrder(s) && InLineOrder(t) && forall x :: x in s <==> x in t
    ensures s == t
  {
    IntLeIsTotal();
    DistinctSameElements(s, t);
    SortedIsUnique(s, t, IdOf, IntLe);
  }

  lemma SameElementsInLists<T>(s: seq<T>, t: seq<T>)
    requires multiset(s) == multiset(t)
    ensures forall x :: x in s <==> x in t
  {
    forall x ensures x in s <==> x in t {
      SameElements(s, t, x);
    }
  }

  /** Reordering the creditor items or the bank lines changes neither what is settled, nor what is
      surfaced, nor what is reported. */
  lemma RunForgetsOrder(policy: Policy,
      bankLines1: seq<BankLine>, before1: State, s1: seq<Settlement>, d1: seq<Settlement>, after1: State,
      bankLines2: seq<BankLine>, before2: State, s2: seq<Settlement>, d2: seq<Settlement>, after2: State)
    requires DistinctLines(bankLines1) && DistinctLines(bankLines2)
    requires IsRun(policy, bankLines1, before1, s1, d1, after1) && IsRun(policy, bankLines2, before2, s2, d2, after2)
    requires multiset(bankLines1) == multiset(bankLines2)
    requires multiset(before1.payables) == multiset(before2.payables) && before1.reconciled == before2.reconciled
    ensures s1 == s2 && d1 == d2
    ensures before1.matched == before2.matched ==> after1.matched == after2.matched
    ensures after1.reconciled == after2.reconciled
  {
    var o1, o2 := Open(before1.payables), Open(before2.payables);
    var l1, l2 := UnmatchedOutgoing(bankLines1, before1.reconciled), UnmatchedOutgoing(bankLines2, before2.reconciled);
    SameElementsInLists(bankLines1, bankLines2);
    SameElementsInLists(before1.payables, before2.payables);
    UnmatchedOutgoingIsAscending(bankLines1, before1.reconciled);
    UnmatchedOutgoingIsAscending(bankLines2, before2.reconciled);
    OutcomeDependsOnElements(policy, o1, l1, s1, d1, o2, l2, s2, d2);
  }

  lemma OutcomeDependsOnElements(policy: Policy,
      o1: seq<Payable>, l1: seq<BankLine>, s1: seq<Settlement>, d1: seq<Settlement>,
      o2: seq<Payable>, l2: seq<BankLine>, s2: seq<Settlement>, d2: seq<Settlement>)
    requires forall p :: p in o1 <==> p in o2
    requires forall l :: l in l1 <==> l in l2
    requires IsOutcome(policy, o1, l1, s1) && IsOutcome(policy, o2, l2, s2)
    requires IsDoubtList(policy, o1, l1, d1) && IsDoubtList(policy, o2, l2, d2)
    ensures s1 == s2 && d1 == d2
  {
    assert s1 == s2 by {
      assert forall x :: x in s1 <==> x in s2;
      SameSettlements(s1, s2);
    }
    assert d1 == d2 by {
      assert forall x :: x in d1 <==> x in d2;
      SameSettlements(d1, d2);
    }
  }

  // --- A second pass settles nothing ---

  lemma StillOpenWasOpen(before: seq<Payable>, after: seq<Payable>, s: seq<Settlement>, p: Payable)
    requires IsAfterSettlements(before, after, s)
    ensures p in Open(after) <==> p in Open(before) && !IsSettled(s, p)
  {
    if p in Open(after) {
      var k :| 0 <= k < |after| && after[k] == p;
      assert before[k] == p;
    }
    if p in Open(before) && !IsSettled(s, p) {
      UnsettledIsAsItWas(before, after, s, p);
    }
  }

  /** What is ambiguous before the pass is ambiguous after it. */
  lemma UniqueAfterWasUniqueBefore(policy: Policy, before: seq<Payable>, after: seq<Payable>, lines: seq<BankLine>, s: seq<Settlement>, p: Payable)
    requires IsAfterSettlements(before, after, s) && IsOutcome(policy, Open(before), lines, s) && IsUnique(Open(after), p)
    ensures IsUnique(Open(before), p) && !IsSettled(s, p)
  {
    StillOpenWasOpen(before, after, s, p);
    forall q | q in Open(before) && q.openOre == p.openOre ensures q == p {
      StillOpenWasOpen(before, after, s, q);
    }
  }

  lemma NothingLeftToSettle(policy: Policy, bankLines: seq<BankLine>, before: State, s: seq<Settlement>, d: seq<Settlement>, after: State, p: Payable, l: BankLine)
    requires DistinctLines(bankLines) && IsRun(policy, bankLines, before, s, d, after)
    ensures !Settles(policy, Open(after.payables), UnmatchedOutgoing(bankLines, after.reconciled), p, l)
  {
    var lines, left := UnmatchedOutgoing(bankLines, before.reconciled), UnmatchedOutgoing(bankLines, after.reconciled);
    UnmatchedOutgoingIsAscending(bankLines, before.reconciled);
    UnmatchedOutgoingIsAscending(bankLines, after.reconciled);
    if Settles(policy, Open(after.payables), left, p, l) {
      UniqueAfterWasUniqueBefore(policy, before.payables, after.payables, lines, s, p);
      SettledWhenPaid(policy, Open(before.payables), lines, s, p);
    }
  }

  /** Running the phase again on the books it left settles nothing and changes no balance. */
  lemma SecondPassSettlesNothing(policy: Policy, bankLines: seq<BankLine>, before: State, s: seq<Settlement>, d: seq<Settlement>, after: State,
      s': seq<Settlement>, d': seq<Settlement>, after': State)
    requires DistinctLines(bankLines)
    requires IsRun(policy, bankLines, before, s, d, after) && IsRun(policy, bankLines, after, s', d', after')
    ensures s' == [] && after'.payables == after.payables && after'.reconciled == after.reconciled && after'.matched == after.matched
  {
    assert forall i :: 0 <= i < |s'| ==> s'[i] in s';
    if s' != [] {
      NothingLeftToSettle(policy, bankLines, before, s, d, after, s'[0].payable, s'[0].line);
    }
    assert forall i :: 0 <= i < |after.payables| ==> !IsSettled(s', after.payables[i]);
  }

  // --- What a settlement means ---

  /** A payable is settled exactly when its balance is unique among the open ones and some unmatched
      outgoing kroner line of that amount names it and is accepted; the line used is the one with
      the lowest id, it settles nothing else, and the balances settled add up to the money used. */
  lemma SettledExactlyWhen(policy: Policy, bankLines: seq<BankLine>, before: State, s: seq<Settlement>, d: seq<Settlement>, after: State, p: Payable)
    requires DistinctLines(bankLines) && IsRun(policy, bankLines, before, s, d, after) && p in before.payables && p.openOre > 0
    ensures IsSettled(s, p) <==>
      && IsUnique(Open(before.payables), p)
      && exists l :: l in bankLines && l.amountOre < 0 && l.id !in before.reconciled && Pays(policy, p, l)
    ensures forall x, y :: x in s && y in s && (x.payable == y.payable || x.line == y.line) ==> x == y
    ensures TotalOpen(before.payables) - TotalOpen(after.payables) == TotalUsed(s)
  {
    var lines := UnmatchedOutgoing(bankLines, before.reconciled);
    UnmatchedOutgoingIsAscending(bankLines, before.reconciled);
    if IsUnique(Open(before.payables), p) {
      SettledWhenPaid(policy, Open(before.payables), lines, s, p);
    }
    forall x, y | x in s && y in s && (x.payable == y.payable || x.line == y.line) ensures x == y {
      if x.payable == y.payable {
        assert x.line.id == y.line.id;
        LineIsIdentified(bankLines, x.line);
      }
    }
  }
}
