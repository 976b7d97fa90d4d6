/** The global invariant of the correction tables, and how the aggregates of a loan's
    history react to one more row. */
module Invariant {
  import opened Options
  import opened Schedules
  import opened Tables
  import opened Services

  // ---------------------------------------------------------------------------
  // The invariant
  // ---------------------------------------------------------------------------

  ghost predicate Balanced(x: Txn) {
    SideTotal(x.legs, Debit) == x.amount == SideTotal(x.legs, Credit)
  }

  /** Every posting balances to its amount; a reversal points back at an older
      transaction, and no transaction is reversed twice. */
  ghost predicate LedgerOk(txns: seq<Txn>) {
    && (forall i | 0 <= i < |txns| :: Balanced(txns[i]))
    && (forall i | 0 <= i < |txns| && txns[i].reversalOf.Some? :: txns[i].reversalOf.value < i)
    && (forall i, j | 0 <= i < j < |txns| && txns[i].reversalOf.Some? :: txns[i].reversalOf != txns[j].reversalOf)
  }

  ghost predicate RepaymentRow(loans: seq<Loan>, txns: seq<Txn>, r: Repayment) {
    && r.loan < |loans| && r.txn < |txns| && r.amount != 0
    && txns[r.txn].member == loans[r.loan].member
    && (r.amount > 0 ==>
          && txns[r.txn].reversalOf == None
          && AllocationOf(txns[r.txn].legs).Total() == r.amount
          && LegSum(txns[r.txn].legs, LoansReceivable, Debit) == 0)
    && (r.amount < 0 ==> txns[r.txn].reversalOf.Some?)
  }

  ghost predicate RepaymentsOk(loans: seq<Loan>, txns: seq<Txn>, repayments: seq<Repayment>) {
    && (forall i | 0 <= i < |repayments| :: RepaymentRow(loans, txns, repayments[i]))
    && (forall i, j | 0 <= i < j < |repayments| :: repayments[i].txn != repayments[j].txn)
  }

  ghost predicate AdjustmentRow(txns: seq<Txn>, repayments: seq<Repayment>, a: Adjustment) {
    && a.repayment < |repayments|
    && repayments[a.repayment].amount == a.amount > 0
    && a.loan == repayments[a.repayment].loan && a.original == repayments[a.repayment].txn
    && a.parts == AllocationOf(Legs(txns, a.original))
    && a.statusAtRequest != WrittenOff && (a.reopens <==> a.statusAtRequest == Closed)
    && (a.reversal.Some? <==> a.status == Posted)
    && (a.checker.Some? <==> a.status != PendingApproval)
    && a.checker != Some(a.maker)
    && (a.status == Posted ==>
          a.reversal.value < |txns| && txns[a.reversal.value].reversalOf == Some(a.original))
  }

  ghost predicate PostedOriginal(adjustments: seq<Adjustment>, original: nat) {
    exists k | 0 <= k < |adjustments| :: adjustments[k].original == original && adjustments[k].status == Posted
  }

  /** At most one adjustment per repayment is not rejected. */
  ghost predicate OneLiveClaim(adjustments: seq<Adjustment>) {
    forall j, k | 0 <= j < k < |adjustments| && adjustments[j].repayment == adjustments[k].repayment ::
      adjustments[j].status == Rejected || adjustments[k].status == Rejected
  }

  ghost predicate AdjustmentsOk(txns: seq<Txn>, repayments: seq<Repayment>, adjustments: seq<Adjustment>) {
    && (forall k | 0 <= k < |adjustments| :: AdjustmentRow(txns, repayments, adjustments[k]))
    && OneLiveClaim(adjustments)
    && (forall i | 0 <= i < |txns| && txns[i].reversalOf.Some? ::
          PostedOriginal(adjustments, txns[i].reversalOf.value))
  }

  ghost predicate WriteOffRow(loans: seq<Loan>, w: WriteOff) {
    && w.loan < |loans| && w.member == loans[w.loan].member
    && w.balance >= 0 && w.penaltyDue >= 0 && w.total == w.balance + w.penaltyDue > 0
    && w.requester !in w.votes
  }

  /** At most one write-off per loan is not voided. */
  ghost predicate OneLiveWriteOff(writeOffs: seq<WriteOff>) {
    forall v, w | 0 <= v < w < |writeOffs| && writeOffs[v].loan == writeOffs[w].loan ::
      writeOffs[v].status == Voided || writeOffs[w].status == Voided
  }

  ghost predicate WriteOffsOk(loans: seq<Loan>, writeOffs: seq<WriteOff>) {
    && (forall w | 0 <= w < |writeOffs| :: WriteOffRow(loans, writeOffs[w]))
    && OneLiveWriteOff(writeOffs)
  }

  /** An executed write-off carries the posting that credits the receivable by exactly its
      snapshot balance (none when that is zero); no other write-off carries a posting. */
  ghost predicate WriteOffPosting(txns: seq<Txn>, w: WriteOff) {
    && (w.txn.Some? <==> w.status == Executed && w.balance > 0)
    && (w.txn.Some? ==> w.txn.value < |txns| && SignedReceivable(txns[w.txn.value].legs) == w.balance)
  }

  ghost predicate WriteOffPostingsOk(txns: seq<Txn>, writeOffs: seq<WriteOff>) {
    forall w | 0 <= w < |writeOffs| :: WriteOffPosting(txns, writeOffs[w])
  }

  /** Receipts exist only for executed write-offs and never sum above the claim. */
  ghost predicate ReceiptsOk(writeOffs: seq<WriteOff>, receipts: seq<Receipt>) {
    && (forall i | 0 <= i < |receipts| ::
          receipts[i].amount > 0 && receipts[i].writeOff < |writeOffs|
          && writeOffs[receipts[i].writeOff].status == Executed)
    && (forall w | 0 <= w < |writeOffs| :: Recovered(receipts, w) <= writeOffs[w].total)
  }

  /** One penalty claim per loan and day. */
  ghost predicate AccrualsOk(accruals: seq<Accrual>) {
    forall i, j | 0 <= i < j < |accruals| && accruals[i].loan == accruals[j].loan :: accruals[i].day != accruals[j].day
  }

  /** What a loan row says, against its history: a written-off loan holds zeros and its
      receivable nets to zero; any other loan of a current member holds exactly the
      principal less its receivable legs, and the accrued less the collected penalties. */
  ghost predicate Figures(l: LoanRow, net: int, taken: int, accrued: int, exited: bool, executed: Option<int>) {
    && l.balance >= 0 && l.penaltyDue >= 0
    && (l.status == WrittenOff <==> executed.Some?)
    && (l.status != Active ==> l.balance == 0 && l.penaltyDue == 0)
    && (l.status == WrittenOff ==> l.principal == net + executed.value)
    && (exited ==> l.status != Active)
    && (!exited && l.status != WrittenOff ==> l.balance == l.principal - net && l.penaltyDue == accrued - taken)
  }

  ghost predicate LoanOk(t: Tables, loan: nat)
    requires loan < |t.loans|
  {
    Figures(t.loans[loan], Net(t.txns, t.repayments, loan, |t.repayments|),
            Taken(t.txns, t.repayments, t.adjustments, loan, |t.repayments|), Accrued(t.accruals, loan),
            t.loans[loan].member in t.exited, ExecutedBalance(t.writeOffs, loan))
  }

  ghost predicate LoansOk(t: Tables) {
    forall loan | 0 <= loan < |t.loans| :: LoanOk(t, loan)
  }

  ghost predicate RowsOk(t: Tables) {
    && LedgerOk(t.txns)
    && RepaymentsOk(t.loans, t.txns, t.repayments)
    && AdjustmentsOk(t.txns, t.repayments, t.adjustments)
    && WriteOffsOk(t.loans, t.writeOffs)
    && WriteOffPostingsOk(t.txns, t.writeOffs)
    && ReceiptsOk(t.writeOffs, t.receipts)
    && AccrualsOk(t.accruals)
    && (forall i | 0 <= i < |t.accruals| :: t.accruals[i].loan < |t.loans|)
  }

  ghost predicate Inv(t: Tables) { RowsOk(t) && LoansOk(t) }

  // ---------------------------------------------------------------------------
  // Frames
  // ---------------------------------------------------------------------------

  /** The first `n` repayments of the loan read the same legs, dates and decisions. */
  ghost predicate SameHistory(xs: seq<Txn>, ys: seq<Txn>, r: seq<Repayment>, s: seq<Repayment>,
                              a: seq<Adjustment>, b: seq<Adjustment>, loan: nat, n: nat) {
    && n <= |r| && n <= |s|
    && (forall i | 0 <= i < n :: r[i] == s[i])
    && (forall i | 0 <= i < n && r[i].loan == loan ::
          && Legs(xs, r[i].txn) == Legs(ys, r[i].txn) && Day(xs, r[i].txn) == Day(ys, r[i].txn)
          && PostedFor(a, i) == PostedFor(b, i))
  }

  lemma {:induction false} SameSums(xs: seq<Txn>, ys: seq<Txn>, r: seq<Repayment>, s: seq<Repayment>,
                                    a: seq<Adjustment>, b: seq<Adjustment>, loan: nat, n: nat)
    requires SameHistory(xs, ys, r, s, a, b, loan, n)
    ensures Net(xs, r, loan, n) == Net(ys, s, loan, n)
    ensures Taken(xs, r, a, loan, n) == Taken(ys, s, b, loan, n)
  {
    if n > 0 {
      SameSums(xs, ys, r, s, a, b, loan, n - 1);
      assert r[n - 1] == s[n - 1];
    }
  }

  lemma {:induction false} SameSurvivors(xs: seq<Txn>, ys: seq<Txn>, r: seq<Repayment>, s: seq<Repayment>,
                                         a: seq<Adjustment>, b: seq<Adjustment>, loan: nat, n: nat)
    requires SameHistory(xs, ys, r, s, a, b, loan, n)
    ensures Survivors(xs, r, a, loan, n) == Survivors(ys, s, b, loan, n)
  {
    if n > 0 {
      SameSurvivors(xs, ys, r, s, a, b, loan, n - 1);
      assert r[n - 1] == s[n - 1];
    }
  }

  /** Appending transactions changes nothing a valid repayment reads. */
  lemma AppendedTxns(loans: seq<Loan>, txns: seq<Txn>, more: seq<Txn>, r: seq<Repayment>, a: seq<Adjustment>, loan: nat)
    requires RepaymentsOk(loans, txns, r)
    ensures Net(txns, r, loan, |r|) == Net(txns + more, r, loan, |r|)
    ensures Taken(txns, r, a, loan, |r|) == Taken(txns + more, r, a, loan, |r|)
    ensures Survivors(txns, r, a, loan, |r|) == Survivors(txns + more, r, a, loan, |r|)
  {
    forall i | 0 <= i < |r| ensures r[i].txn < |txns| {
      assert RepaymentRow(loans, txns, r[i]);
    }
    SameSums(txns, txns + more, r, r, a, a, loan, |r|);
    SameSurvivors(txns, txns + more, r, r, a, a, loan, |r|);
  }

  /** One more repayment row adds its own signed receivable and, if it survives, its own penalty. */
  lemma AppendedRepayment(txns: seq<Txn>, r: seq<Repayment>, x: Repayment, a: seq<Adjustment>, loan: nat)
    ensures var s := r + [x];
      && Net(txns, s, loan, |s|) == Net(txns, r, loan, |r|)
           + (if x.loan == loan then SignedReceivable(Legs(txns, x.txn)) else 0)
      && Taken(txns, s, a, loan, |s|) == Taken(txns, r, a, loan, |r|)
           + (if x.loan == loan && x.amount > 0 && !PostedFor(a, |r|)
              then AllocationOf(Legs(txns, x.txn)).penalties else 0)
  {
    SameSums(txns, txns, r, r + [x], a, a, loan, |r|);
  }

  lemma AppendedSurvivor(txns: seq<Txn>, r: seq<Repayment>, x: Repayment, a: seq<Adjustment>, loan: nat)
    ensures var s := r + [x];
      Survivors(txns, s, a, loan, |s|)
      == if x.loan == loan && x.amount > 0 && !PostedFor(a, |r|)
         then InsertByDay(Survivors(txns, r, a, loan, |r|), PaymentOf(txns, x.txn))
         else Survivors(txns, r, a, loan, |r|)
  {
    SameSurvivors(txns, txns, r, r + [x], a, a, loan, |r|);
  }

  /** Posting one pending adjustment decides its own repayment and no other. */
  lemma PostingDecides(a: seq<Adjustment>, k: nat, posted: Adjustment, i: nat)
    requires k < |a| && a[k].status == PendingApproval && OneLiveClaim(a)
    requires posted.status == Posted && posted.repayment == a[k].repayment
    ensures PostedFor(a[k := posted], i) == (PostedFor(a, i) || i == a[k].repayment)
    ensures !PostedFor(a, a[k].repayment)
  {
    var b := a[k := posted];
    assert b[k] == posted;
    if PostedFor(a, i) {
      var j :| 0 <= j < |a| && a[j].repayment == i && a[j].status == Posted;
      assert b[j] == a[j];
    }
  }

  /** A decision that is not a posting leaves every repayment's standing alone. */
  lemma UnpostedKeeps(a: seq<Adjustment>, k: nat, x: Adjustment, i: nat)
    requires k < |a| && a[k].status != Posted && x.status != Posted
    ensures PostedFor(a[k := x], i) == PostedFor(a, i)
  {
    var b := a[k := x];
    if PostedFor(a, i) {
      var j :| 0 <= j < |a| && a[j].repayment == i && a[j].status == Posted;
      assert b[j] == a[j];
    }
  }

  lemma AppendedClaim(a: seq<Adjustment>, x: Adjustment, i: nat)
    requires x.status != Posted
    ensures PostedFor(a + [x], i) == PostedFor(a, i)
  {
    var b := a + [x];
    if PostedFor(a, i) {
      var j :| 0 <= j < |a| && a[j].repayment == i && a[j].status == Posted;
      assert b[j] == a[j];
    }
  }

  /** Posting the adjustment of repayment `i` takes exactly its penalty part out of the sum. */
  lemma {:induction false} TakenWithout(txns: seq<Txn>, r: seq<Repayment>, a: seq<Adjustment>, b: seq<Adjustment>,
                                        i: nat, n: nat)
    requires i < n <= |r| && r[i].amount > 0
    requires !PostedFor(a, i) && forall j: nat :: PostedFor(b, j) == (PostedFor(a, j) || j == i)
    ensures Taken(txns, r, b, r[i].loan, n)
         == Taken(txns, r, a, r[i].loan, n) - AllocationOf(Legs(txns, r[i].txn)).penalties
  {
    if i == n - 1 {
      SameSums(txns, txns, r, r, a, b, r[i].loan, n - 1);
    } else {
      TakenWithout(txns, r, a, b, i, n - 1);
    }
  }

  // ---------------------------------------------------------------------------
  // Write-offs of one loan
  // ---------------------------------------------------------------------------

  lemma {:induction false} ExecutedFound(writeOffs: seq<WriteOff>, w: nat)
    requires w < |writeOffs| && writeOffs[w].status == Executed && OneLiveWriteOff(writeOffs)
    ensures ExecutedBalance(writeOffs, writeOffs[w].loan) == Some(writeOffs[w].balance)
  {
    if w < |writeOffs| - 1 {
      ExecutedFound(writeOffs[..|writeOffs| - 1], w);
    }
  }

  lemma {:induction false} ExecutedExists(writeOffs: seq<WriteOff>, loan: nat) returns (w: nat)
    requires ExecutedBalance(writeOffs, loan).Some?
    ensures w < |writeOffs| && writeOffs[w].status == Executed && writeOffs[w].loan == loan
  {
    var n := |writeOffs| - 1;
    if writeOffs[n].loan == loan && writeOffs[n].status == Executed {
      w := n;
    } else {
      w := ExecutedExists(writeOffs[..n], loan);
    }
  }

  lemma {:induction false} ExecutedSame(v: seq<WriteOff>, w: seq<WriteOff>, loan: nat)
    requires |v| == |w|
    requires forall i | 0 <= i < |v| && (v[i].loan == loan || w[i].loan == loan) ::
               v[i].loan == w[i].loan && v[i].balance == w[i].balance
               && (v[i].status == Executed <==> w[i].status == Executed)
    ensures ExecutedBalance(v, loan) == ExecutedBalance(w, loan)
  {
    if v != [] {
      ExecutedSame(v[..|v| - 1], w[..|w| - 1], loan);
    }
  }
}
