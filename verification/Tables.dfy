/** The loan-correction tables as values, and what the services read from them.

    Append-only tables are sequences, an id is a row's position. Amounts are cents. The
    sums over ledger legs, repayments, accruals and receipts are the SQL aggregates the
    services run; a missing parent row contributes nothing, as in an inner join. */
module Tables {
  import opened Options
  import opened Schedules

  type Schedule = rows: seq<Installment> | DueInOrder(rows) witness []

  // ---------------------------------------------------------------------------
  // Rows
  // ---------------------------------------------------------------------------

  datatype LoanStatus = Active | Closed | WrittenOff

  datatype LoanClass = Normal | Watch | Substandard | Doubtful | Loss

  /** A loans row with its schedule; `paid` is the paid_amount column of `rows`. */
  datatype LoanRow = LoanRow(member: nat, principal: nat, balance: int, penaltyDue: int, status: LoanStatus,
                             grade: LoanClass, rows: Schedule, paid: seq<int>)

  type Loan = l: LoanRow | |l.paid| == |l.rows| witness LoanRow(0, 0, 0, 0, Active, Normal, [], [])

  datatype Account = Cash | PenaltyIncome | InterestIncome | LoansReceivable | WriteOffExpense | BadDebtRecoveries

  datatype Side = Debit | Credit

  datatype Leg = Leg(account: Account, side: Side, amount: nat)

  datatype Txn = Txn(member: nat, amount: nat, day: int, legs: seq<Leg>, reversalOf: Option<nat>)

  datatype Repayment = Repayment(loan: nat, txn: nat, amount: int)

  datatype Allocation = Allocation(penalties: nat, interest: nat, principal: nat) {
    function Total(): nat { penalties + interest + principal }
  }

  datatype AdjustmentStatus = PendingApproval | Posted | Rejected

  datatype Adjustment = Adjustment(repayment: nat, loan: nat, original: nat, reversal: Option<nat>, maker: nat,
                                   checker: Option<nat>, amount: nat, parts: Allocation, reopens: bool,
                                   balanceAtRequest: int, penaltyAtRequest: int, statusAtRequest: LoanStatus,
                                   status: AdjustmentStatus, version: nat)

  datatype WriteOffStatus = Requested | Approved | Voided | Executed

  datatype WriteOff = WriteOff(loan: nat, member: nat, balance: int, penaltyDue: int, total: int, requester: nat,
                               votes: map<nat, bool>, status: WriteOffStatus, txn: Option<nat>, version: nat)

  datatype Receipt = Receipt(writeOff: nat, txn: nat, amount: nat)

  datatype GuaranteeStatus = Live | Released

  datatype Guarantee = Guarantee(loan: nat, amount: nat, status: GuaranteeStatus)

  datatype Accrual = Accrual(loan: nat, day: int, amount: nat)

  datatype Tables = Tables(loans: seq<Loan>, txns: seq<Txn>, repayments: seq<Repayment>,
                           adjustments: seq<Adjustment>, writeOffs: seq<WriteOff>, receipts: seq<Receipt>,
                           guarantees: seq<Guarantee>, accruals: seq<Accrual>, exited: set<nat>)

  // ---------------------------------------------------------------------------
  // Ledger legs
  // ---------------------------------------------------------------------------

  function LegSum(legs: seq<Leg>, account: Account, side: Side): (s: nat) {
    if legs == [] then 0
    else
      var own := if legs[0].account == account && legs[0].side == side then legs[0].amount else 0;
      own + LegSum(legs[1..], account, side)
  }

  function SideTotal(legs: seq<Leg>, side: Side): (s: nat) {
    if legs == [] then 0
    else
      var own := if legs[0].side == side then legs[0].amount else 0;
      own + SideTotal(legs[1..], side)
  }

  function Legs(txns: seq<Txn>, id: nat): seq<Leg> { if id < |txns| then txns[id].legs else [] }

  function Day(txns: seq<Txn>, id: nat): int { if id < |txns| then txns[id].day else 0 }

  /** The split of one repayment, read back from its credit legs. */
  function AllocationOf(legs: seq<Leg>): Allocation {
    Allocation(LegSum(legs, PenaltyIncome, Credit), LegSum(legs, InterestIncome, Credit),
               LegSum(legs, LoansReceivable, Credit))
  }

  /** Credits minus debits on the loans receivable account. */
  function SignedReceivable(legs: seq<Leg>): int {
    LegSum(legs, LoansReceivable, Credit) - LegSum(legs, LoansReceivable, Debit)
  }

  function CreditLeg(account: Account, amount: nat): seq<Leg> {
    if amount > 0 then [Leg(account, Credit, amount)] else []
  }

  /** The split-leg repayment posting: one debit, one credit per non-zero component. */
  function RepaymentLegs(a: Allocation): seq<Leg> {
    [Leg(Cash, Debit, a.Total())]
    + (CreditLeg(PenaltyIncome, a.penalties)
       + (CreditLeg(InterestIncome, a.interest) + CreditLeg(LoansReceivable, a.principal)))
  }

  function Other(side: Side): Side { if side == Debit then Credit else Debit }

  /** The reversing entry: every leg with its side flipped. */
  function Mirror(legs: seq<Leg>): seq<Leg> {
    if legs == [] then []
    else [Leg(legs[0].account, Other(legs[0].side), legs[0].amount)] + Mirror(legs[1..])
  }

  lemma {:induction false} SumsConcat(a: seq<Leg>, b: seq<Leg>, account: Account, side: Side)
    ensures LegSum(a + b, account, side) == LegSum(a, account, side) + LegSum(b, account, side)
    ensures SideTotal(a + b, side) == SideTotal(a, side) + SideTotal(b, side)
  {
    if a == [] {
      assert a + b == b;
    } else {
      assert (a + b)[1..] == a[1..] + b;
      SumsConcat(a[1..], b, account, side);
    }
  }

  lemma CreditLegSums(income: Account, amount: nat, account: Account, side: Side)
    ensures LegSum(CreditLeg(income, amount), account, side)
         == if account == income && side == Credit then amount else 0
    ensures SideTotal(CreditLeg(income, amount), side) == if side == Credit then amount else 0
  {
  }

  lemma RepaymentLegSums(a: Allocation, account: Account, side: Side)
    ensures SideTotal(RepaymentLegs(a), side) == a.Total()
    ensures LegSum(RepaymentLegs(a), account, side) ==
      match account {
        case Cash => if side == Debit then a.Total() else 0
        case PenaltyIncome => if side == Credit then a.penalties else 0
        case InterestIncome => if side == Credit then a.interest else 0
        case LoansReceivable => if side == Credit then a.principal else 0
        case _ => 0
      }
  {
    var p, i, r := CreditLeg(PenaltyIncome, a.penalties), CreditLeg(InterestIncome, a.interest),
                   CreditLeg(LoansReceivable, a.principal);
    CreditLegSums(PenaltyIncome, a.penalties, account, side);
    CreditLegSums(InterestIncome, a.interest, account, side);
    CreditLegSums(LoansReceivable, a.principal, account, side);
    SumsConcat(i, r, account, side);
    SumsConcat(p, i + r, account, side);
    SumsConcat([Leg(Cash, Debit, a.Total())], p + (i + r), account, side);
  }

  /** Reading the legs of a repayment gives back the allocation that produced them; the
      posting balances and never debits the receivable. */
  lemma AllocationRoundTrip(a: Allocation)
    ensures AllocationOf(RepaymentLegs(a)) == a
    ensures SideTotal(RepaymentLegs(a), Debit) == a.Total() == SideTotal(RepaymentLegs(a), Credit)
    ensures LegSum(RepaymentLegs(a), LoansReceivable, Debit) == 0
  {
    RepaymentLegSums(a, PenaltyIncome, Credit);
    RepaymentLegSums(a, InterestIncome, Credit);
    RepaymentLegSums(a, LoansReceivable, Credit);
    RepaymentLegSums(a, LoansReceivable, Debit);
  }

  /** A reversal negates its original, account by account and in total. */
  lemma {:induction false} MirrorNegates(legs: seq<Leg>, account: Account, side: Side)
    ensures LegSum(Mirror(legs), account, side) == LegSum(legs, account, Other(side))
    ensures SideTotal(Mirror(legs), side) == SideTotal(legs, Other(side))
    ensures |Mirror(legs)| == |legs|
  {
    if legs != [] {
      MirrorNegates(legs[1..], account, side);
      assert Mirror(legs)[1..] == Mirror(legs[1..]);
    }
  }

  /** A leg counts once, on its own account and side, wherever it stands. */
  lemma LegCounts(before: seq<Leg>, leg: Leg, after: seq<Leg>, account: Account, side: Side)
    ensures LegSum(before + [leg] + after, account, side)
         == LegSum(before, account, side) + LegSum(after, account, side)
            + if leg.account == account && leg.side == side then leg.amount else 0
    ensures SideTotal(before + [leg] + after, side)
         == SideTotal(before, side) + SideTotal(after, side) + if leg.side == side then leg.amount else 0
  {
    SumsConcat(before + [leg], after, account, side);
    SumsConcat(before, [leg], account, side);
    assert [leg][1..] == [];
  }

  /** The two sides of one account in a posting. */
  predicate Moves(legs: seq<Leg>, account: Account, debit: int, credit: int) {
    LegSum(legs, account, Debit) == debit && LegSum(legs, account, Credit) == credit
  }

  /** One more transaction at the end, posted for that member, amount and day. */
  ghost predicate Posts(before: seq<Txn>, after: seq<Txn>, member: nat, amount: int, day: int,
                        reversalOf: Option<nat>) {
    && |after| == |before| + 1 && after[..|before|] == before
    && var x := after[|before|];
       x.member == member && x.amount == amount && x.day == day && x.reversalOf == reversalOf
  }

  /** Leg by leg the same account and amount on the other side, so the pair nets to zero on
      every account. */
  ghost predicate Cancels(reversal: seq<Leg>, original: seq<Leg>) {
    && |reversal| == |original|
    && (forall i | 0 <= i < |original| ::
          && reversal[i].account == original[i].account && reversal[i].amount == original[i].amount
          && reversal[i].side != original[i].side)
    && (forall account ::
          Moves(reversal, account, LegSum(original, account, Credit), LegSum(original, account, Debit)))
  }

  lemma {:induction false} MirrorLegByLeg(legs: seq<Leg>, i: nat)
    requires i < |legs|
    ensures |Mirror(legs)| == |legs|
    ensures Mirror(legs)[i] == Leg(legs[i].account, if legs[i].side == Debit then Credit else Debit, legs[i].amount)
  {
    MirrorNegates(legs, Cash, Debit);
    if i > 0 {
      MirrorLegByLeg(legs[1..], i - 1);
    }
  }

  lemma MirrorCancels(legs: seq<Leg>)
    ensures Cancels(Mirror(legs), legs)
  {
    MirrorNegates(legs, Cash, Debit);
    forall i | 0 <= i < |legs|
      ensures Mirror(legs)[i] == Leg(legs[i].account, if legs[i].side == Debit then Credit else Debit, legs[i].amount)
    {
      MirrorLegByLeg(legs, i);
    }
    forall account
      ensures Moves(Mirror(legs), account, LegSum(legs, account, Credit), LegSum(legs, account, Debit))
    {
      MirrorNegates(legs, account, Debit);
      MirrorNegates(legs, account, Credit);
    }
  }

  /** The deferred balance trigger freezes a committed transaction: no further legs, however
      balanced, can be added to it. */
  lemma NoLateLegs(legs: seq<Leg>, more: seq<Leg>, amount: nat)
    requires SideTotal(legs, Debit) == amount == SideTotal(legs, Credit)
    requires more != [] && more[0].amount > 0
    ensures !(SideTotal(legs + more, Debit) == amount == SideTotal(legs + more, Credit))
  {
    SumsConcat(legs, more, Cash, Debit);
    SumsConcat(legs, more, Cash, Credit);
  }

  // ---------------------------------------------------------------------------
  // Aggregates over the history of one loan
  // ---------------------------------------------------------------------------

  /** Signed net of every receivable leg attached to the first `n` repayments of the loan. */
  function Net(txns: seq<Txn>, repayments: seq<Repayment>, loan: nat, n: nat): int
    requires n <= |repayments|
  {
    if n == 0 then 0
    else
      var last := repayments[n - 1];
      var own := if last.loan == loan then SignedReceivable(Legs(txns, last.txn)) else 0;
      Net(txns, repayments, loan, n - 1) + own
  }

  predicate PostedFor(adjustments: seq<Adjustment>, repayment: nat) {
    exists k | 0 <= k < |adjustments| :: adjustments[k].repayment == repayment && adjustments[k].status == Posted
  }

  /** A surviving repayment: a positive row without a posted adjustment. */
  predicate Survives(repayments: seq<Repayment>, adjustments: seq<Adjustment>, i: nat)
    requires i < |repayments|
  {
    repayments[i].amount > 0 && !PostedFor(adjustments, i)
  }

  /** Penalty parts of the surviving repayments of the loan. */
  function Taken(txns: seq<Txn>, repayments: seq<Repayment>, adjustments: seq<Adjustment>, loan: nat, n: nat): int
    requires n <= |repayments|
  {
    if n == 0 then 0
    else
      var last := repayments[n - 1];
      var own := if last.loan == loan && Survives(repayments, adjustments, n - 1)
                 then AllocationOf(Legs(txns, last.txn)).penalties else 0;
      Taken(txns, repayments, adjustments, loan, n - 1) + own
  }

  /** Stable insertion by date. */
  function InsertByDay(payments: seq<Payment>, x: Payment): (out: seq<Payment>) {
    if payments == [] || payments[|payments| - 1].day <= x.day then payments + [x]
    else InsertByDay(payments[..|payments| - 1], x) + [payments[|payments| - 1]]
  }

  function PaymentOf(txns: seq<Txn>, id: nat): Payment {
    var parts := AllocationOf(Legs(txns, id));
    Payment(Day(txns, id), parts.interest + parts.principal)
  }

  /** The surviving repayments of the loan in date order: the rows the replay reads. */
  function Survivors(txns: seq<Txn>, repayments: seq<Repayment>, adjustments: seq<Adjustment>, loan: nat, n: nat)
    : seq<Payment>
    requires n <= |repayments|
  {
    if n == 0 then []
    else
      var before := Survivors(txns, repayments, adjustments, loan, n - 1);
      if repayments[n - 1].loan == loan && Survives(repayments, adjustments, n - 1)
      then InsertByDay(before, PaymentOf(txns, repayments[n - 1].txn)) else before
  }

  function Accrued(accruals: seq<Accrual>, loan: nat): (s: nat) {
    if accruals == [] then 0
    else
      var last := accruals[|accruals| - 1];
      Accrued(accruals[..|accruals| - 1], loan) + if last.loan == loan then last.amount else 0
  }

  function Recovered(receipts: seq<Receipt>, writeOff: nat): (s: nat) {
    if receipts == [] then 0
    else
      var last := receipts[|receipts| - 1];
      Recovered(receipts[..|receipts| - 1], writeOff) + if last.writeOff == writeOff then last.amount else 0
  }

  /** The snapshot balance of the executed write-off of the loan, if it has one. */
  function ExecutedBalance(writeOffs: seq<WriteOff>, loan: nat): (b: Option<int>) {
    if writeOffs == [] then None
    else
      var last := writeOffs[|writeOffs| - 1];
      if last.loan == loan && last.status == Executed then Some(last.balance)
      else ExecutedBalance(writeOffs[..|writeOffs| - 1], loan)
  }

  /** Interest accrued and unpaid on the rows due by `day`; paid cash covers interest first. */
  function InterestDue(rows: seq<Installment>, paid: seq<int>, day: int): (s: nat)
    requires |paid| == |rows|
  {
    if rows == [] then 0
    else
      var own := if rows[0].due <= day && paid[0] < rows[0].totalDue then Max(rows[0].interestDue - paid[0], 0) else 0;
      own + InterestDue(rows[1..], paid[1..], day)
  }

  /** A row adds its unpaid interest when it has come due and is not paid in full. */
  lemma {:induction false} InterestDueAdds(rows: seq<Installment>, paid: seq<int>, row: Installment, cash: int,
                                           day: int)
    requires |paid| == |rows|
    ensures InterestDue(rows + [row], paid + [cash], day)
         == InterestDue(rows, paid, day)
            + if row.due <= day && cash < row.totalDue && cash < row.interestDue then row.interestDue - cash else 0
  {
    if rows == [] {
      assert ([row])[1..] == [] && ([cash])[1..] == [];
      assert rows + [row] == [row] && paid + [cash] == [cash];
    } else {
      assert (rows + [row])[1..] == rows[1..] + [row] && (paid + [cash])[1..] == paid[1..] + [cash];
      InterestDueAdds(rows[1..], paid[1..], row, cash, day);
    }
  }

  // ---------------------------------------------------------------------------
  // Sorting
  // ---------------------------------------------------------------------------

  lemma {:induction false} InsertBounded(payments: seq<Payment>, x: Payment, day: int)
    requires NoLaterThan(payments, day) && x.day <= day
    ensures NoLaterThan(InsertByDay(payments, x), day)
  {
    if payments == [] || payments[|payments| - 1].day <= x.day {
    } else {
      InsertBounded(payments[..|payments| - 1], x, day);
    }
  }

  lemma {:induction false} InsertKeepsOrder(payments: seq<Payment>, x: Payment)
    requires DayOrdered(payments)
    ensures DayOrdered(InsertByDay(payments, x))
  {
    if payments == [] || payments[|payments| - 1].day <= x.day {
    } else {
      var init, last := payments[..|payments| - 1], payments[|payments| - 1];
      InsertKeepsOrder(init, x);
      InsertBounded(init, x, last.day);
    }
  }

  /** Insertion after all earlier and same-day payments, before the later ones. */
  lemma {:induction false} InsertSplits(early: seq<Payment>, late: seq<Payment>, x: Payment)
    requires NoLaterThan(early, x.day) && LaterThan(late, x.day)
    ensures InsertByDay(early + late, x) == early + [x] + late
  {
    if late == [] {
      assert early + late == early;
    } else {
      var init, last := late[..|late| - 1], late[|late| - 1];
      assert (early + late)[..|early + late| - 1] == early + init;
      InsertSplits(early, init, x);
      assert early + [x] + init + [last] == early + [x] + late;
    }
  }

  lemma {:induction false} SurvivorsOrdered(txns: seq<Txn>, repayments: seq<Repayment>, adjustments: seq<Adjustment>,
                                            loan: nat, n: nat)
    requires n <= |repayments|
    ensures DayOrdered(Survivors(txns, repayments, adjustments, loan, n))
  {
    if n > 0 {
      SurvivorsOrdered(txns, repayments, adjustments, loan, n - 1);
      InsertKeepsOrder(Survivors(txns, repayments, adjustments, loan, n - 1), PaymentOf(txns, repayments[n - 1].txn));
    }
  }
}
