/** What repayment adjustments guarantee across the two phases. */
module Adjustments {
  import opened Options
  import opened Schedules
  import opened Tables
  import Runs
  import opened Services
  import opened Invariant
  import opened Preservation

  // ---------------------------------------------------------------------------
  // Guards that never fire
  // ---------------------------------------------------------------------------

  lemma BalanceReconstructs(t: Tables, checker: Actor, id: nat, day: int, after: Tables, loan: nat)
    requires Inv(t) && ApprovalRefusal(t, checker, id) == None && after == ApprovalWrites(t, checker, id, day)
    requires loan == t.repayments[t.adjustments[id].repayment].loan
    ensures ReconstructedBalance(after, loan) == after.loans[loan].balance
  {
    assert LoanOk(t, loan);
    assert AdjustmentRow(t.txns, t.repayments, t.adjustments[id]);
    assert RepaymentRow(t.loans, t.txns, t.repayments[t.adjustments[id].repayment]);
    ApprovalSums(t, checker, id, day, loan, true, after, Net(after.txns, after.repayments, loan, |after.repayments|),
                 Taken(after.txns, after.repayments, after.adjustments, loan, |after.repayments|));
  }

  /** The in-transaction conservation check of an approval never fails. */
  lemma SelfCheckNeverFails(t: Tables, checker: Actor, id: nat, day: int)
    requires Inv(t)
    ensures ApproveAdjustment(t, checker, id, day) != Refused(SelfCheckFailed)
  {
    if ApprovalRefusal(t, checker, id) == None {
      var loan := t.repayments[t.adjustments[id].repayment].loan;
      BalanceReconstructs(t, checker, id, day, ApprovalWrites(t, checker, id, day), loan);
    }
  }

  /** ... in any state any run reaches. */
  lemma SelfCheckNeverFailsOnRuns(commands: seq<Command>, checker: Actor, id: nat, day: int)
    ensures ApproveAdjustment(Run(EMPTY, commands), checker, id, day) != Refused(SelfCheckFailed)
  {
    EveryRun(commands);
    SelfCheckNeverFails(Run(EMPTY, commands), checker, id, day);
  }

  lemma NotReversed(t: Tables, id: nat)
    requires RowsOk(t) && id < |t.adjustments| && t.adjustments[id].status == PendingApproval
    ensures !Reversed(t.txns, t.adjustments[id].original)
  {
    forall k | 0 <= k < |t.adjustments| && t.adjustments[k].status == Posted
      ensures t.adjustments[k].original != t.adjustments[id].original
    {
      assert AdjustmentRow(t.txns, t.repayments, t.adjustments[k]);
      assert AdjustmentRow(t.txns, t.repayments, t.adjustments[id]);
    }
  }

  /** A checker who is not the maker, whom the users table vouches for, who is outside the
      assurance roles, and whose ceiling, where one is configured, covers the amount. */
  predicate Entitled(checker: Actor, maker: nat, amount: int) {
    checker.id != maker && checker.known && !checker.assurance && WithinBand(checker, amount)
  }

  /** With an approval matrix configured, only a known user ratifies, up to the ceiling. */
  predicate WithinBand(actor: Actor, amount: int) {
    match actor.ceiling
    case None => true
    case Some(most) => actor.known && amount <= most
  }

  /** A loan that cannot take a correction back: closed, with a surety discharged since. */
  predicate Discharged(t: Tables, loan: nat)
    requires loan < |t.loans|
  {
    t.loans[loan].status == Closed
    && exists g | 0 <= g < |t.guarantees| :: t.guarantees[g].loan == loan && t.guarantees[g].status == Released
  }

  predicate Unclaimed(t: Tables, repayment: nat) {
    forall k | 0 <= k < |t.adjustments| && t.adjustments[k].repayment == repayment ::
      t.adjustments[k].status == Rejected
  }

  /** A repayment a correction may still touch. */
  predicate Correctable(t: Tables, repayment: nat) {
    && repayment < |t.repayments| && t.repayments[repayment].amount > 0
    && t.repayments[repayment].loan < |t.loans|
    && var l := t.loans[t.repayments[repayment].loan]; l.member !in t.exited && l.status != WrittenOff
  }

  /** A pending claim whose loan stands as it stood at the request, before an entitled checker. */
  predicate Approvable(t: Tables, checker: Actor, id: nat)
    requires id < |t.adjustments|
  {
    var a := t.adjustments[id];
    && a.status == PendingApproval && Entitled(checker, a.maker, a.amount) && Correctable(t, a.repayment)
    && var loan := t.repayments[a.repayment].loan;
       && t.loans[loan].balance == a.balanceAtRequest && t.loans[loan].penaltyDue == a.penaltyAtRequest
       && t.loans[loan].status == a.statusAtRequest && !Discharged(t, loan)
  }

  /** A pending adjustment is approved exactly when the checker is entitled, the member and
      the loan still admit it, the snapshot holds, and no discharged surety would be bound
      again; the pinned allocation and the ledger reversal never stand in the way. */
  lemma ApprovalAdmits(t: Tables, checker: Actor, id: nat, day: int)
    requires Inv(t) && id < |t.adjustments|
    ensures ApproveAdjustment(t, checker, id, day).Done? <==> Approvable(t, checker, id)
    ensures ApprovalRefusal(t, checker, id) == None <==> Approvable(t, checker, id)
  {
    var a := t.adjustments[id];
    assert AdjustmentRow(t.txns, t.repayments, a);
    assert RepaymentRow(t.loans, t.txns, t.repayments[a.repayment]);
    ChainAdmits(t, a.repayment);
    SelfCheckNeverFails(t, checker, id, day);
    if a.status == PendingApproval {
      NotReversed(t, id);
    }
  }

  /** Neither phase of an adjustment of this repayment can succeed, whoever acts, whenever. */
  ghost predicate ShutToCorrection(t: Tables, repayment: nat) {
    && (forall maker :: RequestAdjustment(t, maker, repayment).Refused?)
    && (forall checker, id, day | 0 <= id < |t.adjustments| && t.adjustments[id].repayment == repayment ::
          ApproveAdjustment(t, checker, id, day).Refused?)
  }

  /** Parent rows are never missing and members always agree, so the chain refuses exactly
      what is not correctable, and its refusal shuts both phases. */
  lemma ChainAdmits(t: Tables, repayment: nat)
    requires Inv(t)
    ensures ChainRefusal(t, repayment) == None <==> Correctable(t, repayment)
    ensures ChainRefusal(t, repayment) == Some(NotFound) <==> repayment >= |t.repayments|
    ensures ChainRefusal(t, repayment) != None ==> ShutToCorrection(t, repayment)
  {
    if repayment < |t.repayments| {
      assert RepaymentRow(t.loans, t.txns, t.repayments[repayment]);
    }
  }

  /** The allocation read back from the ledger always totals the repayment, so a request is
      refused only for these reasons. */
  lemma RequestAdmits(t: Tables, maker: Actor, repayment: nat)
    requires Inv(t)
    ensures RequestAdjustment(t, maker, repayment).Done? <==>
      && Correctable(t, repayment) && Unclaimed(t, repayment)
      && !Discharged(t, t.repayments[repayment].loan) && WithinBand(maker, t.repayments[repayment].amount)
  {
    ChainAdmits(t, repayment);
    if repayment < |t.repayments| {
      assert RepaymentRow(t.loans, t.txns, t.repayments[repayment]);
    }
  }

  // ---------------------------------------------------------------------------
  // The schedule against its history
  // ---------------------------------------------------------------------------

  function History(t: Tables, loan: nat): seq<Payment> {
    Survivors(t.txns, t.repayments, t.adjustments, loan, |t.repayments|)
  }

  /** The paid amounts are what a replay of the surviving repayments gives. */
  ghost predicate InSync(t: Tables, loan: nat) {
    loan < |t.loans| ==> t.loans[loan].paid == ReplayPaid(t.loans[loan].rows, History(t, loan))
  }

  lemma HistoryOrdered(t: Tables, loan: nat)
    ensures DayOrdered(History(t, loan))
  {
    SurvivorsOrdered(t.txns, t.repayments, t.adjustments, loan, |t.repayments|);
  }

  function RepaidCash(t: Tables, loan: nat, amount: int, day: int): nat
    requires RepaymentRefusal(t, loan, amount, day) == None
  {
    var l := t.loans[loan];
    var a := Allocate(amount, l.penaltyDue, InterestDue(l.rows, l.paid, day));
    a.interest + a.principal
  }

  lemma PaymentBuilt(txns: seq<Txn>, x: Txn, a: Allocation)
    requires x.legs == RepaymentLegs(a)
    ensures PaymentOf(txns + [x], |txns|) == Payment(x.day, a.interest + a.principal)
  {
    AllocationRoundTrip(a);
    assert Legs(txns + [x], |txns|) == x.legs;
  }

  lemma RepaymentShape(t: Tables, u: Tables, loan: nat, amount: int, day: int)
      returns (a: Allocation, x: Txn, y: Repayment)
    requires RepaymentRefusal(t, loan, amount, day) == None && u == RepaymentWrites(t, loan, amount, day)
    ensures u.txns == t.txns + [x] && u.repayments == t.repayments + [y] && u.adjustments == t.adjustments
    ensures x.legs == RepaymentLegs(a) && x.day == day && y == Repayment(loan, |t.txns|, amount) && amount > 0
    ensures a.interest + a.principal == RepaidCash(t, loan, amount, day)
  {
    var l := t.loans[loan];
    a := Allocate(amount, l.penaltyDue, InterestDue(l.rows, l.paid, day));
    x, y := Txn(l.member, amount, day, RepaymentLegs(a), None), Repayment(loan, |t.txns|, amount);
  }

  /** One more surviving repayment inserts its cash into the history of its loan by date. */
  lemma HistoryGrows(t: Tables, u: Tables, loan: nat, a: Allocation, x: Txn, y: Repayment, other: nat,
                     own: seq<Payment>, before: seq<Payment>, after: seq<Payment>)
    requires RepaymentsOk(t.loans, t.txns, t.repayments) && AdjustmentsOk(t.txns, t.repayments, t.adjustments)
    requires u.txns == t.txns + [x] && u.repayments == t.repayments + [y] && u.adjustments == t.adjustments
    requires x.legs == RepaymentLegs(a) && y == Repayment(loan, |t.txns|, y.amount) && y.amount > 0
    requires own == History(t, loan) && before == History(t, other) && after == History(u, other)
    ensures after == if other == loan then InsertByDay(own, Payment(x.day, a.interest + a.principal)) else before
  {
    AppendedTxns(t.loans, t.txns, [x], t.repayments, t.adjustments, other);
    AppendedSurvivor(t.txns + [x], t.repayments, y, t.adjustments, other);
    PaymentBuilt(t.txns, x, a);
  }

  /** The surviving payments dated on or before `day`, then the later ones. */
  function Upto(payments: seq<Payment>, day: int): (n: nat)
    ensures n <= |payments|
  {
    if payments == [] || payments[0].day > day then 0 else 1 + Upto(payments[1..], day)
  }

  lemma {:induction false} UptoSplits(payments: seq<Payment>, day: int)
    requires DayOrdered(payments)
    ensures NoLaterThan(payments[..Upto(payments, day)], day) && LaterThan(payments[Upto(payments, day)..], day)
  {
    if payments != [] && payments[0].day <= day {
      UptoSplits(payments[1..], day);
      var n := Upto(payments[1..], day);
      assert payments[..n + 1] == [payments[0]] + payments[1..][..n];
      assert payments[n + 1..] == payments[1..][n..];
    }
  }

  lemma {:induction false} DueByWithinRows(rows: seq<Installment>, day: int)
    ensures DueBy(rows, day) <= DueBefore(rows, |rows|)
  {
    if rows != [] {
      DueByWithinRows(rows[1..], day);
    }
  }

  lemma {:induction false} ReplayWithinRows(rows: seq<Installment>, payments: seq<Payment>)
    ensures 0 <= ReplayTotal(rows, payments) <= DueBefore(rows, |rows|)
  {
    if payments != [] {
      ReplayWithinRows(rows, payments[..|payments| - 1]);
      DueByWithinRows(rows, payments[|payments| - 1].day);
    }
  }

  /** Within the rows, the waterfall determines its total. */
  lemma {:induction false} WaterfallInjective(rows: seq<Installment>, a: int, b: int)
    requires 0 <= a <= DueBefore(rows, |rows|) && 0 <= b <= DueBefore(rows, |rows|)
    requires Waterfall(rows, a) == Waterfall(rows, b)
    ensures a == b
  {
    if rows != [] {
      var own := rows[0].totalDue;
      assert Waterfall(rows, a)[0] == Waterfall(rows, b)[0];
      assert Waterfall(rows[1..], a - own) == Waterfall(rows, a)[1..] == Waterfall(rows[1..], b - own);
      if a >= own && b >= own {
        WaterfallInjective(rows[1..], a - own, b - own);
      }
    }
  }

  /** Forward pass and replay give the same rows exactly when they give the same total. */
  lemma SyncByTotals(rows: Schedule, history: seq<Payment>, x: Payment)
    ensures Pass(rows, ReplayPaid(rows, history), x.day, x.cash) == ReplayPaid(rows, InsertByDay(history, x))
       <==> Advance(ReplayTotal(rows, history), x.cash, DueBy(rows, x.day))
            == ReplayTotal(rows, InsertByDay(history, x))
  {
    var t, u := ReplayTotal(rows, history), ReplayTotal(rows, InsertByDay(history, x));
    ReplayIsWaterfall(rows, history);
    ReplayIsWaterfall(rows, InsertByDay(history, x));
    PassAdvances(rows, t, x.day, x.cash);
    ReplayWithinRows(rows, history);
    ReplayWithinRows(rows, InsertByDay(history, x));
    DueByWithinRows(rows, x.day);
    if Waterfall(rows, Advance(t, x.cash, DueBy(rows, x.day))) == Waterfall(rows, u) {
      WaterfallInjective(rows, Advance(t, x.cash, DueBy(rows, x.day)), u);
    }
  }

  /** The caller's check before recording: `total` is what the schedule has absorbed, `due`
      what was due by the payment's own date. */
  predicate KeepsPace(rows: seq<Installment>, history: seq<Payment>, x: Payment) {
    var total, due := ReplayTotal(rows, history), DueBy(rows, x.day);
    x.cash == 0 || total + x.cash <= due
    || ReplayFrom(rows, due, history[Upto(history, x.day)..]) == Max(total, due)
  }

  lemma InsertedTotals(rows: Schedule, history: seq<Payment>, x: Payment)
    requires DayOrdered(history)
    ensures KeepsPace(rows, history, x) <==>
      Advance(ReplayTotal(rows, history), x.cash, DueBy(rows, x.day)) == ReplayTotal(rows, InsertByDay(history, x))
  {
    var n := Upto(history, x.day);
    var early, late := history[..n], history[n..];
    assert history == early + late;
    UptoSplits(history, x.day);
    InsertSplits(early, late, x);
    if x.cash > 0 {
      BackdatedPayment(rows, early, late, x);
    } else {
      NothingInserted(rows, early, late, x);
    }
  }

  lemma NothingInserted(rows: Schedule, early: seq<Payment>, late: seq<Payment>, x: Payment)
    requires x.cash == 0
    ensures ReplayTotal(rows, early + [x] + late) == ReplayTotal(rows, early + late)
    ensures Advance(ReplayTotal(rows, early + late), 0, DueBy(rows, x.day)) == ReplayTotal(rows, early + late)
  {
    ReplayConcat(rows, 0, early, late);
    ReplayConcat(rows, 0, early + [x], late);
  }

  lemma SyncsExactly(rows: Schedule, history: seq<Payment>, x: Payment, paid: seq<int>, after: seq<Payment>)
    requires DayOrdered(history) && after == InsertByDay(history, x)
    requires paid == Pass(rows, ReplayPaid(rows, history), x.day, x.cash)
    ensures paid == ReplayPaid(rows, after) <==> KeepsPace(rows, history, x)
  {
    SyncByTotals(rows, history, x);
    InsertedTotals(rows, history, x);
  }

  /** A repayment keeps the schedule in step with its history exactly when it brings no
      cash to it, or fits under the dues of its own date, or when even a schedule paid up
      on that date would have ended no higher. A repayment dated no earlier than every
      surviving one always does: see `InOrderRepaymentSyncs`. */
  lemma RepaymentSyncs(t: Tables, loan: nat, amount: int, day: int)
    requires Inv(t) && InSync(t, loan) && RepaymentRefusal(t, loan, amount, day) == None
    ensures InSync(RepaymentWrites(t, loan, amount, day), loan) <==>
      KeepsPace(t.loans[loan].rows, History(t, loan), Payment(day, RepaidCash(t, loan, amount, day)))
  {
    var u := RepaymentWrites(t, loan, amount, day);
    var x := Payment(day, RepaidCash(t, loan, amount, day));
    var a, p, y := RepaymentShape(t, u, loan, amount, day);
    HistoryGrows(t, u, loan, a, p, y, loan, History(t, loan), History(t, loan), History(u, loan));
    HistoryOrdered(t, loan);
    SyncsExactly(t.loans[loan].rows, History(t, loan), x, u.loans[loan].paid, History(u, loan));
  }

  /** Two repayments of one loan, the second received with the earlier date: the paid rows
      end at 50 and 0 where a replay of the same history gives 50 and 30. */
  lemma BackdatedRun()
    ensures var t := Run(EMPTY, [CDisburse(7, 100, TWO_ROWS, []), CRepay(0, 30, 10)] + [CRepay(0, 50, 5)]);
      && |t.loans| == 1 && t.loans[0].paid == [50, 0] && !InSync(t, 0)
      && History(t, 0) == [FIVE, TEN] && ReplayPaid(TWO_ROWS, History(t, 0)) == [50, 30]
  {
    var lend, ten, five := CDisburse(7, 100, TWO_ROWS, []), CRepay(0, 30, 10), CRepay(0, 50, 5);
    var t := Step(EMPTY, lend);
    assert [lend, ten] + [five] == [lend] + ([ten] + ([five] + []));
    Runs.Unrolled(Step, EMPTY, lend, [ten] + ([five] + []));
    Runs.Unrolled(Step, t, ten, [five] + []);
    Runs.Unrolled(Step, Step(t, ten), five, []);
    EveryRun([]);
    StepKeeps(EMPTY, lend);
    FirstLoan(7, 100, TWO_ROWS);
    BackdatedSteps(t, ten, five);
  }

  const TEN := Payment(10, 30)
  const FIVE := Payment(5, 50)

  lemma BackdatedSteps(t: Tables, ten: Command, five: Command)
    requires ten == CRepay(0, 30, 10) && five == CRepay(0, 50, 5)
    requires Inv(t) && t == EMPTY.(loans := [LoanRow(7, 100, 100, 0, Active, Normal, TWO_ROWS, Zeros(2))])
    ensures var u := Step(Step(t, ten), five);
      |u.loans| == 1 && u.loans[0].paid == [50, 0] && u.loans[0].rows == TWO_ROWS
      && History(u, 0) == [FIVE, TEN] && ReplayPaid(TWO_ROWS, History(u, 0)) == [50, 30]
  {
    var mid := Step(t, ten);
    StepKeeps(t, ten);
    NoInterest(TWO_ROWS, Zeros(2), 10);
    PaidOut(t, 30, 10, []);
    InOrderTen(mid.loans[0].paid);
    NoInterest(TWO_ROWS, mid.loans[0].paid, 5);
    PaidOut(mid, 50, 5, [TEN]);
    BackdatedPasses();
  }

  lemma InOrderTen(paid: seq<int>)
    requires paid == Pass(TWO_ROWS, Zeros(2), 10, 30)
    ensures paid == ReplayPaid(TWO_ROWS, [TEN]) && paid == [30, 0]
    ensures InsertByDay([], TEN) == [TEN] && InsertByDay([TEN], FIVE) == [FIVE, TEN]
  {
    assert [TEN][..0] == [] && [] + [FIVE] + [TEN] == [FIVE, TEN];
    ReplayIsWaterfall(TWO_ROWS, [TEN]);
    assert TWO_ROWS[1..] == [Installment(10, 0, 50)];
    assert ReplayTotal(TWO_ROWS, []) == 0 && DueBy(TWO_ROWS, 10) == 100;
    assert Waterfall(TWO_ROWS, 30) == [30, 0];
  }

  lemma NoInterest(rows: seq<Installment>, paid: seq<int>, day: int)
    requires |paid| == |rows| == 2 && rows[0].interestDue == 0 == rows[1].interestDue && paid[0] >= 0 && paid[1] >= 0
    ensures InterestDue(rows, paid, day) == 0
  {
    assert rows[1..][1..] == [] && paid[1..][1..] == [];
    assert InterestDue(rows[1..], paid[1..], day) == 0;
  }

  /** A repayment that is all principal and leaves something owed. */
  lemma PaidOut(t: Tables, amount: nat, day: int, history: seq<Payment>)
    requires Inv(t) && |t.loans| == 1 && t.loans[0].status == Active && t.loans[0].penaltyDue == 0
    requires InterestDue(t.loans[0].rows, t.loans[0].paid, day) == 0 && 0 < amount < t.loans[0].balance
    requires history == History(t, 0)
    ensures var u := Step(t, CRepay(0, amount, day));
      && |u.loans| == 1 && u.loans[0] == t.loans[0].(balance := t.loans[0].balance - amount,
                                                     paid := Pass(t.loans[0].rows, t.loans[0].paid, day, amount))
      && History(u, 0) == InsertByDay(history, Payment(day, amount))
  {
    var u := RepaymentWrites(t, 0, amount, day);
    var a, x, y := RepaymentShape(t, u, 0, amount, day);
    HistoryGrows(t, u, 0, a, x, y, 0, history, history, History(u, 0));
    assert Step(t, CRepay(0, amount, day)) == u;
  }

  lemma {:induction false} UptoAll(payments: seq<Payment>, day: int)
    requires NoLaterThan(payments, day)
    ensures Upto(payments, day) == |payments|
  {
    if payments != [] {
      UptoAll(payments[1..], day);
    }
  }

  lemma InOrderRepaymentSyncs(t: Tables, loan: nat, amount: int, day: int)
    requires Inv(t) && InSync(t, loan) && RepaymentRefusal(t, loan, amount, day) == None
    requires NoLaterThan(History(t, loan), day)
    ensures InSync(RepaymentWrites(t, loan, amount, day), loan)
  {
    var rows, history := t.loans[loan].rows, History(t, loan);
    HistoryOrdered(t, loan);
    UptoAll(history, day);
    EarlyTotal(rows, history, day);
    RepaymentSyncs(t, loan, amount, day);
  }

  // ---------------------------------------------------------------------------
  // A complete adjustment: request, then approval
  // ---------------------------------------------------------------------------

  /** Both phases back to back, the approval taking the request just made. */
  function Complete(t: Tables, maker: Actor, checker: Actor, repayment: nat, day: int): Outcome {
    match RequestAdjustment(t, maker, repayment)
    case Refused(why) => Refused(why)
    case Done(requested) => ApproveAdjustment(requested, checker, |t.adjustments|, day)
  }

  /** The loan row a complete adjustment leaves, given the history it leaves. */
  function Undone(l: Loan, parts: Allocation, history: seq<Payment>): Loan {
    l.(balance := l.balance + parts.principal, penaltyDue := l.penaltyDue + parts.penalties,
       status := if l.status == Closed then Active else l.status, paid := ReplayPaid(l.rows, history))
  }

  lemma CompleteLoans(t: Tables, maker: Actor, checker: Actor, repayment: nat, day: int)
    requires Complete(t, maker, checker, repayment, day).Done?
    ensures var u := Complete(t, maker, checker, repayment, day).tables;
      && repayment < |t.repayments| && t.repayments[repayment].loan < |t.loans|
      && var (loan, txn) := (t.repayments[repayment].loan, t.repayments[repayment].txn);
         u.loans == t.loans[loan := Undone(t.loans[loan], AllocationOf(Legs(t.txns, txn)), History(u, loan))]
  {
  }

  /** What a complete adjustment adds to the history: one mirrored posting, one negative
      row, and one posted claim, so one repayment less survives. */
  ghost predicate Voids(t: Tables, u: Tables, repayment: nat) {
    && |u.txns| == |t.txns| + 1 && u.txns[..|t.txns|] == t.txns
    && |u.repayments| == |t.repayments| + 1 && u.repayments[..|t.repayments|] == t.repayments
    && u.repayments[|t.repayments|].amount < 0
    && forall k: nat :: PostedFor(u.adjustments, k) == (PostedFor(t.adjustments, k) || k == repayment)
  }

  lemma CompleteVoids(t: Tables, maker: Actor, checker: Actor, repayment: nat, day: int)
    requires Inv(t) && Complete(t, maker, checker, repayment, day).Done?
    ensures Inv(Complete(t, maker, checker, repayment, day).tables)
    ensures Voids(t, Complete(t, maker, checker, repayment, day).tables, repayment)
    ensures repayment < |t.repayments| && t.repayments[repayment].txn < |t.txns|
    ensures var (u, id) := (Complete(t, maker, checker, repayment, day).tables, t.repayments[repayment].txn);
      && Posts(t.txns, u.txns, t.txns[id].member, t.txns[id].amount, day, Some(id))
      && Cancels(u.txns[|t.txns|].legs, t.txns[id].legs)
  {
    MirrorCancels(t.txns[t.repayments[repayment].txn].legs);
    var r := RequestAdjustment(t, maker, repayment).tables;
    var u := Complete(t, maker, checker, repayment, day).tables;
    var id := |t.adjustments|;
    RequestKeeps(t, maker, repayment);
    ApproveKeeps(r, checker, id, day);
    forall k: nat ensures PostedFor(u.adjustments, k) == (PostedFor(t.adjustments, k) || k == repayment) {
      AppendedClaim(t.adjustments, r.adjustments[id], k);
      PostingDecides(r.adjustments, id, u.adjustments[id], k);
    }
  }

  /** A correction row never survives: it adds nothing to the history. */
  lemma CorrectionIsSilent(t: Tables, u: Tables, repayment: nat, loan: nat)
    requires Voids(t, u, repayment)
    ensures History(u, loan) == Survivors(u.txns, t.repayments, u.adjustments, loan, |t.repayments|)
  {
    var n := |t.repayments|;
    assert u.repayments == t.repayments + [u.repayments[n]];
    AppendedSurvivor(u.txns, t.repayments, u.repayments[n], u.adjustments, loan);
  }

  lemma RepaidThenUndone(l: Loan, a: Allocation, day: int, history: seq<Payment>)
    requires l.status == Active
    ensures Undone(RepaidLoan(l, a, day), a, history)
         == l.(grade := RepaidLoan(l, a, day).grade, paid := ReplayPaid(l.rows, history))
  {
  }

  /** Recording a repayment and adjusting it away restores balance, penalties and status
      exactly; the paid amounts come back exactly when the schedule was in step with its
      history before. Only the grade of a loan the repayment had closed stays reset. */
  lemma RepayThenAdjust(t: Tables, repaid: Tables, u: Tables, loan: nat, amount: int, day: int, maker: Actor,
                        checker: Actor, today: int)
    requires Inv(t) && RepaymentRefusal(t, loan, amount, day) == None && repaid == RepaymentWrites(t, loan, amount, day)
    requires Complete(repaid, maker, checker, |t.repayments|, today) == Done(u)
    ensures loan < |u.loans| && loan < |repaid.loans|
    ensures u.loans[loan] == t.loans[loan].(grade := repaid.loans[loan].grade,
                                            paid := ReplayPaid(t.loans[loan].rows, History(t, loan)))
    ensures u.loans[loan].paid == t.loans[loan].paid <==> InSync(t, loan)
  {
    var l := t.loans[loan];
    var a := Allocate(amount, l.penaltyDue, InterestDue(l.rows, l.paid, day));
    RepayKeepsRows(t, loan, amount, day);
    RepayKeepsLoans(t, loan, amount, day);
    CompleteLoans(repaid, maker, checker, |t.repayments|, today);
    AllocationRoundTrip(a);
    assert Legs(repaid.txns, |t.txns|) == RepaymentLegs(a);
    HistoryReturns(t, loan, amount, day, maker, checker, today);
    RepaidThenUndone(l, a, day, History(t, loan));
  }

  lemma HistoryReturns(t: Tables, loan: nat, amount: int, day: int, maker: Actor, checker: Actor, today: int)
    requires Inv(t) && RepaymentRefusal(t, loan, amount, day) == None
    requires Inv(RepaymentWrites(t, loan, amount, day))
    requires Complete(RepaymentWrites(t, loan, amount, day), maker, checker, |t.repayments|, today).Done?
    ensures History(Complete(RepaymentWrites(t, loan, amount, day), maker, checker, |t.repayments|, today).tables, loan)
         == History(t, loan)
  {
    var repaid := RepaymentWrites(t, loan, amount, day);
    CompleteVoids(repaid, maker, checker, |t.repayments|, today);
    VoidedLastReturns(t, repaid, Complete(repaid, maker, checker, |t.repayments|, today).tables, loan);
  }

  /** Adding one repayment and voiding it leaves the history of every loan as it was. */
  lemma VoidedLastReturns(t: Tables, repaid: Tables, u: Tables, loan: nat)
    requires RowsOk(t) && Voids(repaid, u, |t.repayments|) && repaid.adjustments == t.adjustments
    requires |repaid.txns| == |t.txns| + 1 && repaid.txns[..|t.txns|] == t.txns
    requires |repaid.repayments| == |t.repayments| + 1 && repaid.repayments[..|t.repayments|] == t.repayments
    ensures History(u, loan) == History(t, loan)
  {
    var n := |t.repayments|;
    CorrectionIsSilent(repaid, u, n, loan);
    forall i | 0 <= i < n
      ensures t.repayments[i] == repaid.repayments[i] && t.repayments[i].txn < |t.txns|
    {
      assert RepaymentRow(t.loans, t.txns, t.repayments[i]);
      assert t.repayments[i] == repaid.repayments[..n][i];
    }
    forall i | 0 <= i < |t.txns| ensures t.txns[i] == u.txns[i] {
      assert t.txns[i] == repaid.txns[..|t.txns|][i];
      assert repaid.txns[i] == u.txns[..|repaid.txns|][i];
    }
    SameSurvivors(t.txns, u.txns, t.repayments, repaid.repayments, t.adjustments, u.adjustments, loan, n);
  }

  /** The loan rows and the history after a complete adjustment of one repayment. */
  ghost predicate Undoes(t: Tables, u: Tables, repayment: nat) {
    && Voids(t, u, repayment)
    && repayment < |t.repayments| && t.repayments[repayment].loan < |t.loans|
    && var (loan, txn) := (t.repayments[repayment].loan, t.repayments[repayment].txn);
       u.loans == t.loans[loan := Undone(t.loans[loan], AllocationOf(Legs(t.txns, txn)), History(u, loan))]
  }

  lemma CompleteUndoes(t: Tables, maker: Actor, checker: Actor, repayment: nat, day: int)
    requires Inv(t) && Complete(t, maker, checker, repayment, day).Done?
    ensures Inv(Complete(t, maker, checker, repayment, day).tables)
    ensures Undoes(t, Complete(t, maker, checker, repayment, day).tables, repayment)
  {
    CompleteVoids(t, maker, checker, repayment, day);
    CompleteLoans(t, maker, checker, repayment, day);
  }

  lemma TwoRows(loans: seq<Loan>, loan: nat, p: Allocation, q: Allocation, g: seq<Payment>, h: seq<Payment>)
    requires loan < |loans|
    ensures var once := loans[loan := Undone(loans[loan], p, g)];
      once[loan := Undone(once[loan], q, h)] == loans[loan := Undone(Undone(loans[loan], p, []), q, h)]
  {
  }

  /** The loan rows after two complete adjustments of one loan. */
  lemma UndoneTwice(t: Tables, u: Tables, u': Tables, i: nat, j: nat, loan: nat, p: Allocation, q: Allocation)
    requires RowsOk(t) && Undoes(t, u, i) && Undoes(u, u', j) && j < |t.repayments|
    requires t.repayments[i].loan == loan == t.repayments[j].loan
    requires p == AllocationOf(Legs(t.txns, t.repayments[i].txn))
    requires q == AllocationOf(Legs(t.txns, t.repayments[j].txn))
    ensures u'.loans == t.loans[loan := Undone(Undone(t.loans[loan], p, []), q, History(u', loan))]
  {
    TwoRows(t.loans, loan, p, q, History(u, loan), History(u', loan));
  }

  lemma UndoneCommutes(l: Loan, p: Allocation, q: Allocation, history: seq<Payment>)
    ensures Undone(Undone(l, p, []), q, history) == Undone(Undone(l, q, []), p, history)
  {
  }

  lemma UndoneEitherWay(t: Tables, u: Tables, u': Tables, v: Tables, v': Tables, i: nat, j: nat, loan: nat,
                        p: Allocation, q: Allocation)
    requires RowsOk(t) && Undoes(t, u, i) && Undoes(u, u', j) && Undoes(t, v, j) && Undoes(v, v', i)
    requires t.repayments[i].loan == loan == t.repayments[j].loan
    requires p == AllocationOf(Legs(t.txns, t.repayments[i].txn))
    requires q == AllocationOf(Legs(t.txns, t.repayments[j].txn))
    ensures u'.loans == v'.loans
  {
    UndoneTwice(t, u, u', i, j, loan, p, q);
    UndoneTwice(t, v, v', j, i, loan, q, p);
    SameVoids(t, u, u', i, j, v, v', loan);
    UndoneCommutes(t.loans[loan], p, q, History(u', loan));
  }

  /** What both phases back to back need. */
  predicate Adjustable(t: Tables, maker: Actor, checker: Actor, repayment: nat) {
    && Correctable(t, repayment) && Unclaimed(t, repayment) && !Discharged(t, t.repayments[repayment].loan)
    && WithinBand(maker, t.repayments[repayment].amount)
    && Entitled(checker, maker.id, t.repayments[repayment].amount)
  }

  lemma CompleteAdmits(t: Tables, maker: Actor, checker: Actor, repayment: nat, day: int)
    requires Inv(t)
    ensures Complete(t, maker, checker, repayment, day).Done? <==> Adjustable(t, maker, checker, repayment)
  {
    RequestAdmits(t, maker, repayment);
    match RequestAdjustment(t, maker, repayment)
    case Refused(_) =>
    case Done(r) =>
      RequestKeeps(t, maker, repayment);
      ApprovalAdmits(r, checker, |t.adjustments|, day);
  }

  lemma CompleteFrame(t: Tables, maker: Actor, checker: Actor, repayment: nat, day: int, u: Tables)
    requires Complete(t, maker, checker, repayment, day) == Done(u)
    ensures u.guarantees == t.guarantees && u.exited == t.exited
    ensures forall i: nat :: Unclaimed(u, i) == (Unclaimed(t, i) && i != repayment)
  {
    var n := |t.adjustments|;
    assert |u.adjustments| == n + 1 && u.adjustments[n].repayment == repayment && u.adjustments[n].status == Posted;
    assert forall k | 0 <= k < n :: u.adjustments[k] == t.adjustments[k];
  }

  /** Adjusting one repayment of a loan neither opens nor shuts the way for another. */
  lemma AdjustableAfter(t: Tables, u: Tables, i: nat, makerI: Actor, checkerI: Actor, dayI: int, j: nat, maker: Actor,
                        checker: Actor)
    requires Inv(t) && Complete(t, makerI, checkerI, i, dayI) == Done(u) && Undoes(t, u, i)
    requires j < |t.repayments| && t.repayments[i].loan == t.repayments[j].loan
    ensures Adjustable(u, maker, checker, j) <==> Adjustable(t, maker, checker, j) && i != j
  {
    CompleteFrame(t, makerI, checkerI, i, dayI, u);
    CompleteAdmits(t, makerI, checkerI, i, dayI);
  }

  /** Two complete adjustments of one loan: if one order is admitted then so is the other,
      whoever acts and on whatever days, and both give the same loan rows. */
  lemma AdjustmentsCommute(t: Tables, u: Tables, u': Tables, i: nat, j: nat, makerI: Actor, checkerI: Actor, dayI: int,
                           makerJ: Actor, checkerJ: Actor, dayJ: int) returns (v: Tables, v': Tables)
    requires Inv(t) && i < |t.repayments| && j < |t.repayments|
    requires t.repayments[i].loan == t.repayments[j].loan
    requires Complete(t, makerI, checkerI, i, dayI) == Done(u) && Complete(u, makerJ, checkerJ, j, dayJ) == Done(u')
    ensures Complete(t, makerJ, checkerJ, j, dayJ) == Done(v) && Complete(v, makerI, checkerI, i, dayI) == Done(v')
    ensures u'.loans == v'.loans && i != j
  {
    var _ := CompleteFrom(t, makerI, checkerI, i, dayI);
    var _ := CompleteFrom(u, makerJ, checkerJ, j, dayJ);
    CompleteAdmits(t, makerI, checkerI, i, dayI);
    CompleteAdmits(u, makerJ, checkerJ, j, dayJ);
    AdjustableAfter(t, u, i, makerI, checkerI, dayI, j, makerJ, checkerJ);
    CompleteAdmits(t, makerJ, checkerJ, j, dayJ);
    v := CompleteFrom(t, makerJ, checkerJ, j, dayJ);
    AdjustableAfter(t, v, j, makerJ, checkerJ, dayJ, i, makerI, checkerI);
    CompleteAdmits(v, makerI, checkerI, i, dayI);
    v' := CompleteFrom(v, makerI, checkerI, i, dayI);
    UndoneEitherWay(t, u, u', v, v', i, j, t.repayments[i].loan, AllocationOf(Legs(t.txns, t.repayments[i].txn)),
                    AllocationOf(Legs(t.txns, t.repayments[j].txn)));
  }

  lemma CompleteFrom(t: Tables, maker: Actor, checker: Actor, repayment: nat, day: int) returns (u: Tables)
    requires Inv(t) && Complete(t, maker, checker, repayment, day).Done?
    ensures u == Complete(t, maker, checker, repayment, day).tables && Inv(u) && Undoes(t, u, repayment)
  {
    u := Complete(t, maker, checker, repayment, day).tables;
    CompleteUndoes(t, maker, checker, repayment, day);
  }

  /** Voiding i then j, or j then i, leaves the same history. */
  lemma SameVoids(t: Tables, u: Tables, u': Tables, i: nat, j: nat, v: Tables, v': Tables, loan: nat)
    requires RowsOk(t) && Voids(t, u, i) && Voids(u, u', j) && Voids(t, v, j) && Voids(v, v', i)
    ensures History(u', loan) == History(v', loan)
  {
    VoidedTwice(t, u, u', i, j, loan);
    VoidedTwice(t, v, v', j, i, loan);
    SameSurvivors(t.txns, t.txns, t.repayments, t.repayments, u'.adjustments, v'.adjustments, loan, |t.repayments|);
  }

  lemma VoidedTwice(t: Tables, u: Tables, u': Tables, i: nat, j: nat, loan: nat)
    requires RowsOk(t) && Voids(t, u, i) && Voids(u, u', j)
    ensures History(u', loan) == Survivors(t.txns, t.repayments, u'.adjustments, loan, |t.repayments|)
    ensures forall k: nat :: PostedFor(u'.adjustments, k) == (PostedFor(t.adjustments, k) || k == i || k == j)
  {
    var n := |t.repayments|;
    CorrectionIsSilent(u, u', j, loan);
    assert u.repayments == t.repayments + [u.repayments[n]];
    AppendedSurvivor(u'.txns, t.repayments, u.repayments[n], u'.adjustments, loan);
    LongerLedger(t.txns, u.txns, u'.txns);
    AppendedTxns(t.loans, t.txns, u'.txns[|t.txns|..], t.repayments, u'.adjustments, loan);
  }

  lemma LongerLedger(a: seq<Txn>, b: seq<Txn>, c: seq<Txn>)
    requires |a| <= |b| <= |c| && b[..|a|] == a && c[..|b|] == b
    ensures c == a + c[|a|..]
  {
    assert c[..|a|] == c[..|b|][..|a|];
  }

  // ---------------------------------------------------------------------------
  // The schedule over whole runs
  // ---------------------------------------------------------------------------

  ghost predicate AllInSync(t: Tables) {
    forall loan | 0 <= loan < |t.loans| :: InSync(t, loan)
  }

  /** Every recorded repayment is dated no earlier than the surviving ones of its loan. */
  ghost predicate InOrderStep(t: Tables, c: Command) {
    c.CRepay? ==> NoLaterThan(History(t, c.loan), c.day)
  }

  ghost predicate InOrderRun(t: Tables, commands: seq<Command>)
    decreases |commands|
  {
    commands == [] || (InOrderStep(t, commands[0]) && InOrderRun(Step(t, commands[0]), commands[1..]))
  }

  lemma {:induction false} EmptyHistory(loans: seq<Loan>, txns: seq<Txn>, r: seq<Repayment>, a: seq<Adjustment>, n: nat)
    requires RepaymentsOk(loans, txns, r) && n <= |r|
    ensures Survivors(txns, r, a, |loans|, n) == []
  {
    if n > 0 {
      EmptyHistory(loans, txns, r, a, n - 1);
      assert RepaymentRow(loans, txns, r[n - 1]);
    }
  }

  /** No repayment, no decision and no new loan: every schedule and history stays. */
  lemma QuietKeepsSync(t: Tables, u: Tables)
    requires AllInSync(t) && |u.loans| == |t.loans| && u.txns == t.txns
    requires u.repayments == t.repayments && u.adjustments == t.adjustments
    requires forall i | 0 <= i < |t.loans| :: u.loans[i].rows == t.loans[i].rows && u.loans[i].paid == t.loans[i].paid
    ensures AllInSync(u)
  {
    forall loan | 0 <= loan < |u.loans| ensures InSync(u, loan) {
      assert InSync(t, loan);
    }
  }

  lemma DisburseKeepsSync(t: Tables, u: Tables, member: nat, principal: nat, rows: Schedule, sureties: seq<nat>)
    requires Inv(t) && AllInSync(t) && Disburse(t, member, principal, rows, sureties) == Done(u)
    ensures AllInSync(u)
  {
    forall loan | 0 <= loan < |u.loans| ensures InSync(u, loan) {
      if loan < |t.loans| {
        assert InSync(t, loan);
      } else {
        EmptyHistory(t.loans, t.txns, t.repayments, t.adjustments, |t.repayments|);
      }
    }
  }

  lemma ServicingKeepsSync(t: Tables, c: Command, u: Tables)
    requires Inv(t) && AllInSync(t) && Perform(t, c) == Done(u)
    requires c.CDisburse? || c.CAccrue? || c.CClassify? || c.CSubstitute? || c.CExit?
    ensures AllInSync(u)
  {
    if c.CDisburse? {
      DisburseKeepsSync(t, u, c.member, c.principal, c.rows, c.sureties);
    } else {
      QuietKeepsSync(t, u);
    }
  }

  lemma RepayKeepsSync(t: Tables, loan: nat, amount: int, day: int)
    requires Inv(t) && AllInSync(t) && RepaymentRefusal(t, loan, amount, day) == None
    requires NoLaterThan(History(t, loan), day)
    ensures AllInSync(RepaymentWrites(t, loan, amount, day))
  {
    var u := RepaymentWrites(t, loan, amount, day);
    InOrderRepaymentSyncs(t, loan, amount, day);
    forall other | 0 <= other < |u.loans| ensures InSync(u, other) {
      assert InSync(t, other);
      var a, x, y := RepaymentShape(t, u, loan, amount, day);
      HistoryGrows(t, u, loan, a, x, y, other, History(t, loan), History(t, other), History(u, other));
    }
  }

  /** An approval rebuilds its own loan from the new history and leaves the others alone. */
  lemma ApproveKeepsSync(t: Tables, checker: Actor, id: nat, day: int)
    requires Inv(t) && AllInSync(t) && ApprovalRefusal(t, checker, id) == None
    ensures AllInSync(ApprovalWrites(t, checker, id, day))
  {
    var u := ApprovalWrites(t, checker, id, day);
    forall loan | 0 <= loan < |u.loans| ensures InSync(u, loan) {
      if loan != t.repayments[t.adjustments[id].repayment].loan {
        assert InSync(t, loan);
        ApprovalElsewhere(t, checker, id, day, loan);
      }
    }
  }

  lemma ApprovalElsewhere(t: Tables, checker: Actor, id: nat, day: int, loan: nat)
    requires RowsOk(t) && ApprovalRefusal(t, checker, id) == None
    requires loan != t.repayments[t.adjustments[id].repayment].loan
    ensures History(ApprovalWrites(t, checker, id, day), loan) == History(t, loan)
  {
    var a, b := t.adjustments, ApprovalAdjustments(t, checker, id);
    var txns, reps := ApprovalTxns(t, id, day), ApprovalRepayments(t, id);
    var i, n := a[id].repayment, |t.repayments|;
    AppendedSurvivor(txns, t.repayments, reps[n], b, loan);
    AppendedTxns(t.loans, t.txns, [txns[|t.txns|]], t.repayments, b, loan);
    forall j | 0 <= j < n && t.repayments[j].loan == loan ensures PostedFor(b, j) == PostedFor(a, j) {
      PostingDecides(a, id, b[id], j);
    }
    SameSurvivors(t.txns, t.txns, t.repayments, t.repayments, a, b, loan, n);
  }

  lemma DecisionKeepsSync(t: Tables, u: Tables)
    requires AllInSync(t) && u == t.(adjustments := u.adjustments)
    requires forall i | 0 <= i < |t.repayments| :: PostedFor(u.adjustments, i) == PostedFor(t.adjustments, i)
    ensures AllInSync(u)
  {
    forall loan | 0 <= loan < |u.loans| ensures InSync(u, loan) {
      assert InSync(t, loan);
      SameSurvivors(t.txns, t.txns, t.repayments, t.repayments, t.adjustments, u.adjustments, loan, |t.repayments|);
    }
  }

  lemma PostingKeepsSync(t: Tables, u: Tables, more: seq<Txn>)
    requires RowsOk(t) && AllInSync(t) && u.txns == t.txns + more && |u.loans| == |t.loans|
    requires u.repayments == t.repayments && u.adjustments == t.adjustments
    requires forall i | 0 <= i < |t.loans| :: u.loans[i].rows == t.loans[i].rows && u.loans[i].paid == t.loans[i].paid
    ensures AllInSync(u)
  {
    forall loan | 0 <= loan < |u.loans| ensures InSync(u, loan) {
      assert InSync(t, loan);
      AppendedTxns(t.loans, t.txns, more, t.repayments, t.adjustments, loan);
    }
  }

  lemma RequestKeepsSync(t: Tables, u: Tables, maker: Actor, repayment: nat)
    requires AllInSync(t) && RequestAdjustment(t, maker, repayment) == Done(u)
    ensures AllInSync(u)
  {
    forall i | 0 <= i < |t.repayments| ensures PostedFor(u.adjustments, i) == PostedFor(t.adjustments, i) {
      AppendedClaim(t.adjustments, NewAdjustment(t, maker, repayment), i);
    }
    DecisionKeepsSync(t, u);
  }

  lemma RejectKeepsSync(t: Tables, u: Tables, checker: Actor, id: nat, version: nat, reasonGiven: bool)
    requires AllInSync(t) && RejectAdjustment(t, checker, id, version, reasonGiven) == Done(u)
    ensures AllInSync(u)
  {
    forall i | 0 <= i < |t.repayments| ensures PostedFor(u.adjustments, i) == PostedFor(t.adjustments, i) {
      UnpostedKeeps(t.adjustments, id, u.adjustments[id], i);
    }
    DecisionKeepsSync(t, u);
  }

  lemma CorrectionKeepsSync(t: Tables, c: Command, u: Tables)
    requires Inv(t) && AllInSync(t) && Perform(t, c) == Done(u)
    requires c.CRequest? || c.CApprove? || c.CReject?
    ensures AllInSync(u)
  {
    match c
    case CApprove(checker, id, day) => ApproveKeepsSync(t, checker, id, day);
    case CRequest(maker, repayment) => RequestKeepsSync(t, u, maker, repayment);
    case CReject(checker, id, version, reasonGiven) => RejectKeepsSync(t, u, checker, id, version, reasonGiven);
  }

  lemma ClaimKeepsSync(t: Tables, c: Command, u: Tables)
    requires Inv(t) && AllInSync(t) && Perform(t, c) == Done(u)
    requires c.CRequestWriteOff? || c.CVote? || c.CVoid? || c.CPostWriteOff? || c.CReceipt? || c.CInsertReceipt?
    ensures AllInSync(u)
  {
    if c.CPostWriteOff? || c.CReceipt? {
      assert u.txns == t.txns + u.txns[|t.txns|..];
      PostingKeepsSync(t, u, u.txns[|t.txns|..]);
    } else {
      QuietKeepsSync(t, u);
    }
  }

  lemma StepKeepsSync(t: Tables, c: Command)
    requires Inv(t) && AllInSync(t) && InOrderStep(t, c)
    ensures AllInSync(Step(t, c))
  {
    if Perform(t, c).Done? {
      if c.CRepay? {
        RepayKeepsSync(t, c.loan, c.amount, c.day);
      } else if c.CRequest? || c.CApprove? || c.CReject? {
        CorrectionKeepsSync(t, c, Step(t, c));
      } else if c.CRequestWriteOff? || c.CVote? || c.CVoid? || c.CPostWriteOff? || c.CReceipt? || c.CInsertReceipt? {
        ClaimKeepsSync(t, c, Step(t, c));
      } else {
        ServicingKeepsSync(t, c, Step(t, c));
      }
    }
  }

  /** On every run whose repayments are recorded in date order, every schedule is at all
      times what a replay of the surviving history gives. */
  lemma {:induction false} RunKeepsSync(t: Tables, commands: seq<Command>)
    requires Inv(t) && AllInSync(t) && InOrderRun(t, commands)
    ensures AllInSync(Run(t, commands))
    decreases |commands|
  {
    if commands != [] {
      StepKeeps(t, commands[0]);
      StepKeepsSync(t, commands[0]);
      RunKeepsSync(Step(t, commands[0]), commands[1..]);
    }
  }
}
