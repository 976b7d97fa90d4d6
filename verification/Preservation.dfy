/** Every service keeps the invariant, so it holds in every state any run reaches. */
module Preservation {
  import opened Options
  import opened Schedules
  import opened Tables
  import opened Services
  import opened Invariant

  // ---------------------------------------------------------------------------
  // Rows
  // ---------------------------------------------------------------------------

  ghost predicate SameMembers(l: seq<Loan>, m: seq<Loan>) {
    |l| <= |m| && forall i | 0 <= i < |l| :: l[i].member == m[i].member
  }

  lemma RepaymentsStay(l: seq<Loan>, m: seq<Loan>, txns: seq<Txn>, more: seq<Txn>, r: seq<Repayment>)
    requires RepaymentsOk(l, txns, r) && SameMembers(l, m)
    ensures RepaymentsOk(m, txns + more, r)
  {
    forall i | 0 <= i < |r| ensures RepaymentRow(m, txns + more, r[i]) {
      assert RepaymentRow(l, txns, r[i]);
    }
  }

  lemma RepaymentsGrow(l: seq<Loan>, m: seq<Loan>, txns: seq<Txn>, x: Txn, r: seq<Repayment>, y: Repayment)
    requires RepaymentsOk(l, txns, r) && SameMembers(l, m)
    requires y.txn == |txns| && RepaymentRow(m, txns + [x], y)
    ensures RepaymentsOk(m, txns + [x], r + [y])
  {
    RepaymentsStay(l, m, txns, [x], r);
    forall i | 0 <= i < |r| ensures r[i].txn < |txns| {
      assert RepaymentRow(l, txns, r[i]);
    }
  }

  /** More transactions that reverse nothing, more repayments: the adjustments stand. */
  lemma AdjustmentsStay(loans: seq<Loan>, txns: seq<Txn>, more: seq<Txn>, r: seq<Repayment>, s: seq<Repayment>,
                        a: seq<Adjustment>)
    requires AdjustmentsOk(txns, r, a) && RepaymentsOk(loans, txns, r)
    requires forall i | 0 <= i < |more| :: more[i].reversalOf == None
    ensures AdjustmentsOk(txns + more, r + s, a)
  {
    forall k | 0 <= k < |a| ensures AdjustmentRow(txns + more, r + s, a[k]) {
      assert AdjustmentRow(txns, r, a[k]);
      assert RepaymentRow(loans, txns, r[a[k].repayment]);
    }
    var ys := txns + more;
    forall i | 0 <= i < |ys| && ys[i].reversalOf.Some? ensures PostedOriginal(a, ys[i].reversalOf.value) {
      assert i < |txns| && ys[i] == txns[i];
    }
  }

  /** Replacing one row by a decided or new one, the other rows untouched. */
  lemma OriginalStaysPosted(a: seq<Adjustment>, k: nat, x: Adjustment, original: nat)
    requires k < |a| && (a[k].status == Posted ==> x.status == Posted && x.original == a[k].original)
    requires PostedOriginal(a, original)
    ensures PostedOriginal(a[k := x], original)
  {
    var j :| 0 <= j < |a| && a[j].original == original && a[j].status == Posted;
    assert a[k := x][j] == if j == k then x else a[j];
  }

  lemma AdjustmentDecided(txns: seq<Txn>, r: seq<Repayment>, a: seq<Adjustment>, k: nat, x: Adjustment)
    requires AdjustmentsOk(txns, r, a) && k < |a| && a[k].status == PendingApproval
    requires AdjustmentRow(txns, r, x) && x.repayment == a[k].repayment
    ensures AdjustmentsOk(txns, r, a[k := x])
  {
    var b := a[k := x];
    forall j | 0 <= j < |b| ensures AdjustmentRow(txns, r, b[j]) {
      if j != k {
        assert AdjustmentRow(txns, r, a[j]);
      }
    }
    forall i | 0 <= i < |txns| && txns[i].reversalOf.Some? ensures PostedOriginal(b, txns[i].reversalOf.value) {
      OriginalStaysPosted(a, k, x, txns[i].reversalOf.value);
    }
  }

  lemma AdjustmentsGrow(txns: seq<Txn>, r: seq<Repayment>, a: seq<Adjustment>, x: Adjustment)
    requires AdjustmentsOk(txns, r, a) && AdjustmentRow(txns, r, x) && !LiveClaim(a, x.repayment)
    ensures AdjustmentsOk(txns, r, a + [x])
  {
    var b := a + [x];
    forall j | 0 <= j < |b| ensures AdjustmentRow(txns, r, b[j]) {
      if j < |a| {
        assert AdjustmentRow(txns, r, a[j]);
      }
    }
    forall i | 0 <= i < |txns| && txns[i].reversalOf.Some? ensures PostedOriginal(b, txns[i].reversalOf.value) {
      var j :| 0 <= j < |a| && a[j].original == txns[i].reversalOf.value && a[j].status == Posted;
      assert b[j] == a[j];
    }
  }

  lemma WriteOffsStay(l: seq<Loan>, m: seq<Loan>, w: seq<WriteOff>)
    requires WriteOffsOk(l, w) && SameMembers(l, m)
    ensures WriteOffsOk(m, w)
  {
    forall i | 0 <= i < |w| ensures WriteOffRow(m, w[i]) {
      assert WriteOffRow(l, w[i]);
    }
  }

  /** A workflow step on one write-off: its snapshot stands, and it does not come back to life. */
  lemma WriteOffMoves(loans: seq<Loan>, w: seq<WriteOff>, id: nat, x: WriteOff)
    requires WriteOffsOk(loans, w) && id < |w| && WriteOffRow(loans, x)
    requires x.loan == w[id].loan && w[id].status != Voided
    ensures WriteOffsOk(loans, w[id := x])
  {
    var v := w[id := x];
    forall i | 0 <= i < |v| ensures WriteOffRow(loans, v[i]) {
      if i != id {
        assert WriteOffRow(loans, w[i]);
      }
    }
  }

  lemma WriteOffPostingMoves(txns: seq<Txn>, more: seq<Txn>, w: seq<WriteOff>, id: nat, x: WriteOff)
    requires WriteOffPostingsOk(txns, w) && id < |w| && WriteOffPosting(txns + more, x)
    ensures WriteOffPostingsOk(txns + more, w[id := x])
  {
  }

  lemma {:induction false} NoReceipts(receipts: seq<Receipt>, w: nat)
    requires forall i | 0 <= i < |receipts| :: receipts[i].writeOff != w
    ensures Recovered(receipts, w) == 0
  {
    if receipts != [] {
      NoReceipts(receipts[..|receipts| - 1], w);
    }
  }

  lemma ReceiptAdds(receipts: seq<Receipt>, x: Receipt, w: nat)
    ensures Recovered(receipts + [x], w) == Recovered(receipts, w) + if x.writeOff == w then x.amount else 0
  {
    assert (receipts + [x])[..|receipts|] == receipts;
  }

  lemma ReceiptsGrow(w: seq<WriteOff>, receipts: seq<Receipt>, x: Receipt)
    requires ReceiptsOk(w, receipts) && x.amount > 0 && x.writeOff < |w| && w[x.writeOff].status == Executed
    requires Recovered(receipts, x.writeOff) + x.amount <= w[x.writeOff].total
    ensures ReceiptsOk(w, receipts + [x])
  {
    forall i | 0 <= i < |w| ensures Recovered(receipts + [x], i) <= w[i].total {
      ReceiptAdds(receipts, x, i);
    }
  }

  // ---------------------------------------------------------------------------
  // Loans
  // ---------------------------------------------------------------------------

  /** A loan row whose history reads the same stays right. */
  lemma LoanStays(t: Tables, u: Tables, loan: nat)
    requires loan < |t.loans| && loan < |u.loans| && LoanOk(t, loan)
    requires u.loans[loan] == t.loans[loan] && (t.loans[loan].member in u.exited <==> t.loans[loan].member in t.exited)
    requires Net(u.txns, u.repayments, loan, |u.repayments|) == Net(t.txns, t.repayments, loan, |t.repayments|)
    requires Taken(u.txns, u.repayments, u.adjustments, loan, |u.repayments|)
          == Taken(t.txns, t.repayments, t.adjustments, loan, |t.repayments|)
    requires Accrued(u.accruals, loan) == Accrued(t.accruals, loan)
    requires ExecutedBalance(u.writeOffs, loan) == ExecutedBalance(t.writeOffs, loan)
    ensures LoanOk(u, loan)
  {
  }

  /** Only non-ledger tables moved: the same loans stay right. */
  lemma LoansStay(t: Tables, u: Tables)
    requires LoansOk(t) && u.loans == t.loans && u.txns == t.txns && u.repayments == t.repayments
    requires u.adjustments == t.adjustments && u.accruals == t.accruals && u.exited == t.exited
    requires u.writeOffs == t.writeOffs
    ensures LoansOk(u)
  {
    forall loan | 0 <= loan < |u.loans| ensures LoanOk(u, loan) {
      assert LoanOk(t, loan);
      LoanStays(t, u, loan);
    }
  }

  // ---------------------------------------------------------------------------
  // Disbursement
  // ---------------------------------------------------------------------------

  lemma {:induction false} NoHistory(loans: seq<Loan>, txns: seq<Txn>, r: seq<Repayment>, a: seq<Adjustment>, n: nat)
    requires RepaymentsOk(loans, txns, r) && n <= |r|
    ensures Net(txns, r, |loans|, n) == 0 && Taken(txns, r, a, |loans|, n) == 0
  {
    if n > 0 {
      NoHistory(loans, txns, r, a, n - 1);
      assert RepaymentRow(loans, txns, r[n - 1]);
    }
  }

  lemma {:induction false} NoAccruals(accruals: seq<Accrual>, loan: nat)
    requires forall i | 0 <= i < |accruals| :: accruals[i].loan != loan
    ensures Accrued(accruals, loan) == 0
  {
    if accruals != [] {
      NoAccruals(accruals[..|accruals| - 1], loan);
    }
  }

  lemma {:induction false} NoWriteOff(writeOffs: seq<WriteOff>, loan: nat)
    requires forall i | 0 <= i < |writeOffs| :: writeOffs[i].loan != loan
    ensures ExecutedBalance(writeOffs, loan) == None
  {
    if writeOffs != [] {
      NoWriteOff(writeOffs[..|writeOffs| - 1], loan);
    }
  }

  lemma DisburseKeeps(t: Tables, member: nat, principal: nat, rows: Schedule, sureties: seq<nat>)
    requires Inv(t) && Disburse(t, member, principal, rows, sureties).Done?
    ensures Inv(Disburse(t, member, principal, rows, sureties).tables)
  {
    var u := Disburse(t, member, principal, rows, sureties).tables;
    var n := |t.loans|;
    RepaymentsStay(t.loans, u.loans, t.txns, [], t.repayments);
    assert t.txns + [] == t.txns;
    WriteOffsStay(t.loans, u.loans, t.writeOffs);
    forall loan | 0 <= loan < |u.loans| ensures LoanOk(u, loan) {
      if loan < n {
        assert LoanOk(t, loan);
        LoanStays(t, u, loan);
      } else {
        NewLoanOk(t, u);
      }
    }
  }

  lemma NewLoanOk(t: Tables, u: Tables)
    requires RowsOk(t) && |u.loans| == |t.loans| + 1
    requires u == t.(loans := u.loans, guarantees := u.guarantees)
    requires var l := u.loans[|t.loans|];
      l.balance == l.principal && l.penaltyDue == 0 && l.status == Active && l.member !in t.exited
    ensures LoanOk(u, |t.loans|)
  {
    NoHistory(t.loans, t.txns, t.repayments, t.adjustments, |t.repayments|);
    NoAccruals(t.accruals, |t.loans|);
    forall i | 0 <= i < |t.writeOffs| ensures t.writeOffs[i].loan != |t.loans| {
      assert WriteOffRow(t.loans, t.writeOffs[i]);
    }
    NoWriteOff(t.writeOffs, |t.loans|);
  }

  // ---------------------------------------------------------------------------
  // Repayment
  // ---------------------------------------------------------------------------

  lemma RepaymentRowBuilt(m: seq<Loan>, txns: seq<Txn>, loan: nat, a: Allocation, amount: nat, day: int)
    requires loan < |m| && a.Total() == amount > 0
    ensures var x := Txn(m[loan].member, amount, day, RepaymentLegs(a), None);
      Balanced(x) && RepaymentRow(m, txns + [x], Repayment(loan, |txns|, amount))
  {
    AllocationRoundTrip(a);
  }

  lemma RepayKeepsRows(t: Tables, loan: nat, amount: int, day: int)
    requires RowsOk(t) && RepaymentRefusal(t, loan, amount, day) == None
    ensures RowsOk(RepaymentWrites(t, loan, amount, day))
  {
    var u := RepaymentWrites(t, loan, amount, day);
    var l := t.loans[loan];
    var a := Allocate(amount, l.penaltyDue, InterestDue(l.rows, l.paid, day));
    var x := u.txns[|t.txns|];
    RepaymentRowBuilt(u.loans, t.txns, loan, a, amount, day);
    RepaymentsGrow(t.loans, u.loans, t.txns, x, t.repayments, Repayment(loan, |t.txns|, amount));
    AdjustmentsStay(t.loans, t.txns, [x], t.repayments, [Repayment(loan, |t.txns|, amount)], t.adjustments);
    WriteOffsStay(t.loans, u.loans, t.writeOffs);
  }

  /** What one recorded repayment adds to the sums of each loan. */
  lemma RepaymentAddsUp(t: Tables, loan: nat, a: Allocation, x: Txn, y: Repayment, other: nat)
    requires RowsOk(t) && x.legs == RepaymentLegs(a) && y == Repayment(loan, |t.txns|, y.amount) && y.amount > 0
    ensures var (txns, r) := (t.txns + [x], t.repayments + [y]);
      && Net(txns, r, other, |r|)
         == Net(t.txns, t.repayments, other, |t.repayments|) + (if other == loan then a.principal else 0)
      && Taken(txns, r, t.adjustments, other, |r|)
         == Taken(t.txns, t.repayments, t.adjustments, other, |t.repayments|)
            + (if other == loan then a.penalties else 0)
  {
    var txns := t.txns + [x];
    AppendedTxns(t.loans, t.txns, [x], t.repayments, t.adjustments, other);
    AppendedRepayment(txns, t.repayments, y, t.adjustments, other);
    AllocationRoundTrip(a);
    assert Legs(txns, |t.txns|) == x.legs;
  }

  lemma RepayKeepsLoans(t: Tables, loan: nat, amount: int, day: int)
    requires Inv(t) && RepaymentRefusal(t, loan, amount, day) == None
    ensures LoansOk(RepaymentWrites(t, loan, amount, day))
  {
    var u := RepaymentWrites(t, loan, amount, day);
    var l := t.loans[loan];
    var a := Allocate(amount, l.penaltyDue, InterestDue(l.rows, l.paid, day));
    forall other | 0 <= other < |u.loans| ensures LoanOk(u, other) {
      assert LoanOk(t, other);
      RepaymentAddsUp(t, loan, a, u.txns[|t.txns|], u.repayments[|t.repayments|], other);
      if other != loan {
        LoanStays(t, u, other);
      }
    }
  }

  // ---------------------------------------------------------------------------
  // Accrual, grading, guarantees, exit
  // ---------------------------------------------------------------------------

  lemma AccrueKeeps(t: Tables, loan: nat, day: int, amount: nat)
    requires Inv(t) && AccruePenalty(t, loan, day, amount).Done?
    ensures Inv(AccruePenalty(t, loan, day, amount).tables)
  {
    var u := AccruePenalty(t, loan, day, amount).tables;
    RepaymentsStay(t.loans, u.loans, t.txns, [], t.repayments);
    assert t.txns + [] == t.txns;
    WriteOffsStay(t.loans, u.loans, t.writeOffs);
    forall other | 0 <= other < |u.loans| ensures LoanOk(u, other) {
      assert LoanOk(t, other);
      if other != loan {
        LoanStays(t, u, other);
      }
    }
  }

  lemma ClassifyKeeps(t: Tables, loan: nat, grade: LoanClass)
    requires Inv(t) && Classify(t, loan, grade).Done?
    ensures Inv(Classify(t, loan, grade).tables)
  {
    var u := Classify(t, loan, grade).tables;
    RepaymentsStay(t.loans, u.loans, t.txns, [], t.repayments);
    assert t.txns + [] == t.txns;
    WriteOffsStay(t.loans, u.loans, t.writeOffs);
    forall other | 0 <= other < |u.loans| ensures LoanOk(u, other) {
      assert LoanOk(t, other);
      if other != loan {
        LoanStays(t, u, other);
      }
    }
  }

  lemma ExitKeeps(t: Tables, member: nat)
    requires Inv(t) && ExitMember(t, member).Done?
    ensures Inv(ExitMember(t, member).tables)
  {
    var u := ExitMember(t, member).tables;
    RepaymentsStay(t.loans, u.loans, t.txns, [], t.repayments);
    assert t.txns + [] == t.txns;
    WriteOffsStay(t.loans, u.loans, t.writeOffs);
    forall loan | 0 <= loan < |u.loans| ensures LoanOk(u, loan) {
      assert LoanOk(t, loan);
      assert u.loans[loan] == Settled(t.loans[loan], member);
    }
  }

  // ---------------------------------------------------------------------------
  // Adjustment
  // ---------------------------------------------------------------------------

  lemma ClaimKeepsSums(t: Tables, x: Adjustment, loan: nat)
    requires x.status != Posted
    ensures Taken(t.txns, t.repayments, t.adjustments + [x], loan, |t.repayments|)
         == Taken(t.txns, t.repayments, t.adjustments, loan, |t.repayments|)
  {
    forall i | 0 <= i < |t.repayments| ensures PostedFor(t.adjustments + [x], i) == PostedFor(t.adjustments, i) {
      AppendedClaim(t.adjustments, x, i);
    }
    SameSums(t.txns, t.txns, t.repayments, t.repayments, t.adjustments, t.adjustments + [x], loan, |t.repayments|);
  }

  lemma RequestKeeps(t: Tables, maker: Actor, repayment: nat)
    requires Inv(t) && RequestAdjustment(t, maker, repayment).Done?
    ensures Inv(RequestAdjustment(t, maker, repayment).tables)
  {
    var u := RequestAdjustment(t, maker, repayment).tables;
    var x := NewAdjustment(t, maker, repayment);
    AdjustmentsGrow(t.txns, t.repayments, t.adjustments, x);
    forall loan | 0 <= loan < |u.loans| ensures LoanOk(u, loan) {
      assert LoanOk(t, loan);
      ClaimKeepsSums(t, x, loan);
      LoanStays(t, u, loan);
    }
  }

  lemma RejectionKeepsSums(t: Tables, id: nat, x: Adjustment, loan: nat)
    requires id < |t.adjustments| && t.adjustments[id].status == PendingApproval && x.status == Rejected
    ensures Taken(t.txns, t.repayments, t.adjustments[id := x], loan, |t.repayments|)
         == Taken(t.txns, t.repayments, t.adjustments, loan, |t.repayments|)
  {
    forall i | 0 <= i < |t.repayments| ensures PostedFor(t.adjustments[id := x], i) == PostedFor(t.adjustments, i) {
      UnpostedKeeps(t.adjustments, id, x, i);
    }
    SameSums(t.txns, t.txns, t.repayments, t.repayments, t.adjustments, t.adjustments[id := x], loan, |t.repayments|);
  }

  lemma RejectKeeps(t: Tables, checker: Actor, id: nat, version: nat, reasonGiven: bool)
    requires Inv(t) && RejectAdjustment(t, checker, id, version, reasonGiven).Done?
    ensures Inv(RejectAdjustment(t, checker, id, version, reasonGiven).tables)
  {
    var u := RejectAdjustment(t, checker, id, version, reasonGiven).tables;
    var x := u.adjustments[id];
    assert AdjustmentRow(t.txns, t.repayments, t.adjustments[id]);
    AdjustmentDecided(t.txns, t.repayments, t.adjustments, id, x);
    forall loan | 0 <= loan < |u.loans| ensures LoanOk(u, loan) {
      assert LoanOk(t, loan);
      RejectionKeepsSums(t, id, x, loan);
      LoanStays(t, u, loan);
    }
  }

  /** The storno pair: the mirrored posting and the negative repayment row are well formed. */
  lemma ReversalBuilt(t: Tables, id: nat, day: int)
    requires RowsOk(t) && id < |t.adjustments| && ChainRefusal(t, t.adjustments[id].repayment) == None
    ensures var r := t.repayments[t.adjustments[id].repayment];
      var x := Reversal(t.txns[r.txn], r.txn, day);
      && Balanced(x)
      && RepaymentRow(t.loans, t.txns + [x], Repayment(r.loan, |t.txns|, -r.amount))
      && SignedReceivable(x.legs) + AllocationOf(t.txns[r.txn].legs).principal == 0
  {
    var r := t.repayments[t.adjustments[id].repayment];
    assert RepaymentRow(t.loans, t.txns, r) && Balanced(t.txns[r.txn]);
    MirrorNegates(t.txns[r.txn].legs, LoansReceivable, Credit);
    MirrorNegates(t.txns[r.txn].legs, LoansReceivable, Debit);
  }

  lemma ApprovalKeepsLedger(t: Tables, checker: Actor, id: nat, day: int)
    requires RowsOk(t) && ApprovalRefusal(t, checker, id) == None
    ensures LedgerOk(ApprovalTxns(t, id, day))
    ensures RepaymentsOk(t.loans, ApprovalTxns(t, id, day), ApprovalRepayments(t, id))
  {
    var r := t.repayments[t.adjustments[id].repayment];
    var x := Reversal(t.txns[r.txn], r.txn, day);
    ReversalBuilt(t, id, day);
    RepaymentsGrow(t.loans, t.loans, t.txns, x, t.repayments, Repayment(r.loan, |t.txns|, -r.amount));
  }

  lemma ApprovalKeepsAdjustments(t: Tables, checker: Actor, id: nat, day: int)
    requires RowsOk(t) && ApprovalRefusal(t, checker, id) == None
    ensures AdjustmentsOk(ApprovalTxns(t, id, day), ApprovalRepayments(t, id), ApprovalAdjustments(t, checker, id))
  {
    var txns, reps := ApprovalTxns(t, id, day), ApprovalRepayments(t, id);
    var a, b := t.adjustments, ApprovalAdjustments(t, checker, id);
    forall k | 0 <= k < |b| ensures AdjustmentRow(txns, reps, b[k]) {
      assert AdjustmentRow(t.txns, t.repayments, a[k]);
      assert RepaymentRow(t.loans, t.txns, t.repayments[a[k].repayment]);
      assert txns == t.txns + txns[|t.txns|..] && reps == t.repayments + reps[|t.repayments|..];
    }
    forall i | 0 <= i < |txns| && txns[i].reversalOf.Some? ensures PostedOriginal(b, txns[i].reversalOf.value) {
      if i == |t.txns| {
        assert AdjustmentRow(t.txns, t.repayments, a[id]);
        assert b[id].original == txns[i].reversalOf.value && b[id].status == Posted;
      } else {
        OriginalStaysPosted(a, id, b[id], txns[i].reversalOf.value);
      }
    }
  }

  lemma ApprovalKeepsRows(t: Tables, checker: Actor, id: nat, day: int)
    requires RowsOk(t) && ApprovalRefusal(t, checker, id) == None
    ensures RowsOk(ApprovalWrites(t, checker, id, day))
  {
    var u := ApprovalWrites(t, checker, id, day);
    ApprovalKeepsLedger(t, checker, id, day);
    ApprovalKeepsAdjustments(t, checker, id, day);
    assert u.txns + [] == u.txns;
    RepaymentsStay(t.loans, u.loans, u.txns, [], u.repayments);
    WriteOffsStay(t.loans, u.loans, t.writeOffs);
  }

  /** What a posted adjustment takes out of the sums: the principal part out of the net
      receivable, the penalty part out of the collected penalties, for its own loan only. */
  lemma ApprovalSums(t: Tables, checker: Actor, id: nat, day: int, loan: nat, own: bool, u: Tables,
                     net: int, taken: int)
    requires RowsOk(t) && ApprovalRefusal(t, checker, id) == None && u == ApprovalWrites(t, checker, id, day)
    requires own == (loan == t.repayments[t.adjustments[id].repayment].loan)
    requires net == Net(u.txns, u.repayments, loan, |u.repayments|)
    requires taken == Taken(u.txns, u.repayments, u.adjustments, loan, |u.repayments|)
    ensures net == Net(t.txns, t.repayments, loan, |t.repayments|)
                   - (if own then t.adjustments[id].parts.principal else 0)
    ensures taken == Taken(t.txns, t.repayments, t.adjustments, loan, |t.repayments|)
                     - (if own then t.adjustments[id].parts.penalties else 0)
  {
    var x, y := ReversalParts(t, checker, id, day);
    CorrectionSums(t, x, y, u.adjustments, loan);
    ApprovalTaken(t, checker, id, loan);
  }

  lemma ReversalParts(t: Tables, checker: Actor, id: nat, day: int) returns (x: Txn, y: Repayment)
    requires RowsOk(t) && ApprovalRefusal(t, checker, id) == None
    ensures ApprovalTxns(t, id, day) == t.txns + [x] && ApprovalRepayments(t, id) == t.repayments + [y]
    ensures y.txn == |t.txns| && y.amount < 0 && y.loan == t.repayments[t.adjustments[id].repayment].loan
    ensures SignedReceivable(x.legs) + t.adjustments[id].parts.principal == 0
  {
    var i := t.adjustments[id].repayment;
    x := Reversal(t.txns[t.repayments[i].txn], t.repayments[i].txn, day);
    y := Repayment(t.repayments[i].loan, |t.txns|, -t.repayments[i].amount);
    ReversalBuilt(t, id, day);
    assert Legs(t.txns, t.repayments[i].txn) == t.txns[t.repayments[i].txn].legs;
  }

  /** A negative row adds its signed receivable and collects nothing. */
  lemma CorrectionSums(t: Tables, x: Txn, y: Repayment, b: seq<Adjustment>, loan: nat)
    requires RowsOk(t) && y.txn == |t.txns| && y.amount < 0
    ensures var n := |t.repayments| + 1;
      && Net(t.txns + [x], t.repayments + [y], loan, n)
         == Net(t.txns, t.repayments, loan, |t.repayments|) + (if y.loan == loan then SignedReceivable(x.legs) else 0)
      && Taken(t.txns + [x], t.repayments + [y], b, loan, n) == Taken(t.txns, t.repayments, b, loan, |t.repayments|)
  {
    AppendedTxns(t.loans, t.txns, [x], t.repayments, b, loan);
    AppendedRepayment(t.txns + [x], t.repayments, y, b, loan);
    assert Legs(t.txns + [x], |t.txns|) == x.legs;
  }

  lemma ApprovalTaken(t: Tables, checker: Actor, id: nat, loan: nat)
    requires RowsOk(t) && ApprovalRefusal(t, checker, id) == None
    ensures Taken(t.txns, t.repayments, ApprovalAdjustments(t, checker, id), loan, |t.repayments|)
      == Taken(t.txns, t.repayments, t.adjustments, loan, |t.repayments|)
         - (if loan == t.repayments[t.adjustments[id].repayment].loan then t.adjustments[id].parts.penalties else 0)
  {
    var a, b := t.adjustments, ApprovalAdjustments(t, checker, id);
    var i := a[id].repayment;
    forall j: nat ensures PostedFor(b, j) == (PostedFor(a, j) || j == i) {
      PostingDecides(a, id, b[id], j);
    }
    PostingDecides(a, id, b[id], i);
    if loan == t.repayments[i].loan {
      TakenWithout(t.txns, t.repayments, a, b, i, |t.repayments|);
    } else {
      SameSums(t.txns, t.txns, t.repayments, t.repayments, a, b, loan, |t.repayments|);
    }
  }

  lemma ApprovalKeepsLoans(t: Tables, checker: Actor, id: nat, day: int)
    requires Inv(t) && ApprovalRefusal(t, checker, id) == None
    ensures LoansOk(ApprovalWrites(t, checker, id, day))
  {
    var u := ApprovalWrites(t, checker, id, day);
    var i := t.adjustments[id].repayment;
    var own := t.repayments[i].loan;
    assert AdjustmentRow(t.txns, t.repayments, t.adjustments[id]);
    assert RepaymentRow(t.loans, t.txns, t.repayments[i]);
    forall loan | 0 <= loan < |u.loans| ensures LoanOk(u, loan) {
      assert LoanOk(t, loan);
      ApprovalSums(t, checker, id, day, loan, loan == own, u, Net(u.txns, u.repayments, loan, |u.repayments|),
                   Taken(u.txns, u.repayments, u.adjustments, loan, |u.repayments|));
      if loan != own {
        LoanStays(t, u, loan);
      }
    }
  }

  lemma ApproveKeeps(t: Tables, checker: Actor, id: nat, day: int)
    requires Inv(t) && ApproveAdjustment(t, checker, id, day).Done?
    ensures Inv(ApproveAdjustment(t, checker, id, day).tables)
  {
    ApprovalKeepsRows(t, checker, id, day);
    ApprovalKeepsLoans(t, checker, id, day);
  }

  // ---------------------------------------------------------------------------
  // Write-off
  // ---------------------------------------------------------------------------

  lemma RequestWriteOffKeepsRows(t: Tables, x: WriteOff)
    requires RowsOk(t) && WriteOffRow(t.loans, x) && !LiveWriteOff(t.writeOffs, x.loan)
    requires x.status == Requested && x.txn == None
    ensures RowsOk(t.(writeOffs := t.writeOffs + [x]))
  {
    var v := t.writeOffs + [x];
    forall w | 0 <= w < |v| ensures WriteOffRow(t.loans, v[w]) && WriteOffPosting(t.txns, v[w]) {
      if w < |t.writeOffs| {
        assert WriteOffRow(t.loans, t.writeOffs[w]) && WriteOffPosting(t.txns, t.writeOffs[w]);
      }
    }
    NoReceipts(t.receipts, |t.writeOffs|);
  }

  lemma RequestWriteOffKeeps(t: Tables, actor: nat, loan: nat)
    requires Inv(t) && RequestWriteOff(t, actor, loan).Done?
    ensures Inv(RequestWriteOff(t, actor, loan).tables)
  {
    var u := RequestWriteOff(t, actor, loan).tables;
    var x := u.writeOffs[|t.writeOffs|];
    assert LoanOk(t, loan);
    RequestWriteOffKeepsRows(t, x);
    forall other | 0 <= other < |u.loans| ensures LoanOk(u, other) {
      assert LoanOk(t, other);
      LoanStays(t, u, other);
    }
  }

  /** A vote or a void: the snapshot stands and nothing executes. */
  lemma WorkflowStepKeeps(t: Tables, id: nat, x: WriteOff)
    requires Inv(t) && id < |t.writeOffs|
    requires var w := t.writeOffs[id]; x == w.(votes := x.votes, status := x.status, version := x.version)
    requires t.writeOffs[id].status == Requested || t.writeOffs[id].status == Approved
    requires x.status != Executed && x.requester !in x.votes
    ensures Inv(t.(writeOffs := t.writeOffs[id := x]))
  {
    var u := t.(writeOffs := t.writeOffs[id := x]);
    assert WriteOffRow(t.loans, t.writeOffs[id]) && WriteOffPosting(t.txns, t.writeOffs[id]);
    WriteOffMoves(t.loans, t.writeOffs, id, x);
    assert t.txns + [] == t.txns;
    WriteOffPostingMoves(t.txns, [], t.writeOffs, id, x);
    forall loan | 0 <= loan < |u.loans| ensures LoanOk(u, loan) {
      assert LoanOk(t, loan);
      ExecutedSame(t.writeOffs, u.writeOffs, loan);
      LoanStays(t, u, loan);
    }
  }

  lemma PostingKeepsRows(t: Tables, actor: nat, id: nat, day: int)
    requires RowsOk(t) && PostingRefusal(t, actor, id) == None
    ensures RowsOk(PostingWrites(t, id, day))
  {
    var u := PostingWrites(t, id, day);
    var w := t.writeOffs[id];
    var more := if w.balance > 0 then [WriteOffTxn(w, day)] else [];
    assert u.txns == t.txns + more;
    assert WriteOffRow(t.loans, w) && WriteOffPosting(t.txns, w);
    if w.balance > 0 {
      TwoLegs(WriteOffExpense, LoansReceivable, w.balance);
    }
    RepaymentsStay(t.loans, u.loans, t.txns, more, t.repayments);
    assert t.repayments + [] == t.repayments;
    AdjustmentsStay(t.loans, t.txns, more, t.repayments, [], t.adjustments);
    WriteOffsStay(t.loans, u.loans, t.writeOffs);
    WriteOffMoves(u.loans, t.writeOffs, id, u.writeOffs[id]);
    WriteOffPostingMoves(t.txns, more, t.writeOffs, id, u.writeOffs[id]);
  }

  /** A posting of one debit and one credit of the same amount. */
  lemma TwoLegs(from: Account, to: Account, amount: nat)
    requires from != LoansReceivable
    ensures var legs := [Leg(from, Debit, amount), Leg(to, Credit, amount)];
      SideTotal(legs, Debit) == amount == SideTotal(legs, Credit)
      && SignedReceivable(legs) == if to == LoansReceivable then amount else 0
  {
    var a, b := [Leg(from, Debit, amount)], [Leg(to, Credit, amount)];
    assert a + b == [Leg(from, Debit, amount), Leg(to, Credit, amount)];
    SumsConcat(a, b, LoansReceivable, Debit);
    SumsConcat(a, b, LoansReceivable, Credit);
  }

  lemma PostingKeepsLoans(t: Tables, actor: nat, id: nat, day: int)
    requires Inv(t) && PostingRefusal(t, actor, id) == None
    ensures LoansOk(PostingWrites(t, id, day))
  {
    var u := PostingWrites(t, id, day);
    var w := t.writeOffs[id];
    var more := if w.balance > 0 then [WriteOffTxn(w, day)] else [];
    assert u.txns == t.txns + more;
    assert WriteOffRow(t.loans, w);
    forall loan | 0 <= loan < |u.loans| ensures LoanOk(u, loan) {
      assert LoanOk(t, loan);
      AppendedTxns(t.loans, t.txns, more, t.repayments, t.adjustments, loan);
      if loan == w.loan {
        WriteOffMoves(t.loans, t.writeOffs, id, u.writeOffs[id]);
        ExecutedFound(u.writeOffs, id);
      } else {
        ExecutedSame(t.writeOffs, u.writeOffs, loan);
        LoanStays(t, u, loan);
      }
    }
  }

  // ---------------------------------------------------------------------------
  // Receipts
  // ---------------------------------------------------------------------------

  lemma ReceiptKeeps(t: Tables, id: nat, amount: int, day: int)
    requires Inv(t) && RecordReceipt(t, id, amount, day).Done?
    ensures Inv(RecordReceipt(t, id, amount, day).tables)
  {
    var u := RecordReceipt(t, id, amount, day).tables;
    var x := u.txns[|t.txns|];
    TwoLegs(Cash, BadDebtRecoveries, amount);
    RepaymentsStay(t.loans, t.loans, t.txns, [x], t.repayments);
    assert t.repayments + [] == t.repayments;
    AdjustmentsStay(t.loans, t.txns, [x], t.repayments, [], t.adjustments);
    ReceiptsGrow(t.writeOffs, t.receipts, Receipt(id, |t.txns|, amount));
    forall loan | 0 <= loan < |u.loans| ensures LoanOk(u, loan) {
      assert LoanOk(t, loan);
      AppendedTxns(t.loans, t.txns, [x], t.repayments, t.adjustments, loan);
      LoanStays(t, u, loan);
    }
  }

  lemma InsertReceiptKeeps(t: Tables, id: nat, txn: nat, amount: int)
    requires Inv(t) && InsertReceipt(t, id, txn, amount).Done?
    ensures Inv(InsertReceipt(t, id, txn, amount).tables)
  {
    ReceiptsGrow(t.writeOffs, t.receipts, Receipt(id, txn, amount));
    LoansStay(t, InsertReceipt(t, id, txn, amount).tables);
  }

  // ---------------------------------------------------------------------------
  // Every run
  // ---------------------------------------------------------------------------

  lemma VoteKeeps(t: Tables, voter: nat, id: nat, vote: bool, quorum: nat)
    requires Inv(t) && CastVote(t, voter, id, vote, quorum).Done?
    ensures Inv(CastVote(t, voter, id, vote, quorum).tables)
  {
    assert WriteOffRow(t.loans, t.writeOffs[id]);
    WorkflowStepKeeps(t, id, CastVote(t, voter, id, vote, quorum).tables.writeOffs[id]);
  }

  lemma VoidKeeps(t: Tables, id: nat, version: nat)
    requires Inv(t) && VoidWriteOff(t, id, version).Done?
    ensures Inv(VoidWriteOff(t, id, version).tables)
  {
    assert WriteOffRow(t.loans, t.writeOffs[id]);
    WorkflowStepKeeps(t, id, VoidWriteOff(t, id, version).tables.writeOffs[id]);
  }

  lemma WriteOffStepKeeps(t: Tables, c: Command, u: Tables)
    requires Inv(t) && Perform(t, c) == Done(u) && (c.CRequestWriteOff? || c.CVote? || c.CVoid? || c.CPostWriteOff?)
    ensures Inv(u)
  {
    match c
    case CRequestWriteOff(actor, loan) => RequestWriteOffKeeps(t, actor, loan);
    case CVote(actor, id, vote, quorum) => VoteKeeps(t, actor, id, vote, quorum);
    case CVoid(id, version) => VoidKeeps(t, id, version);
    case CPostWriteOff(actor, id, day) =>
      PostingKeepsRows(t, actor, id, day);
      PostingKeepsLoans(t, actor, id, day);
  }

  lemma ServicingStepKeeps(t: Tables, c: Command, u: Tables)
    requires Inv(t) && Perform(t, c) == Done(u)
    requires c.CDisburse? || c.CRepay? || c.CAccrue? || c.CClassify? || c.CSubstitute? || c.CExit?
    ensures Inv(u)
  {
    match c
    case CDisburse(member, principal, rows, sureties) => DisburseKeeps(t, member, principal, rows, sureties);
    case CRepay(loan, amount, day) =>
      RepayKeepsRows(t, loan, amount, day);
      RepayKeepsLoans(t, loan, amount, day);
    case CAccrue(loan, day, penalty) => AccrueKeeps(t, loan, day, penalty);
    case CClassify(loan, grade) => ClassifyKeeps(t, loan, grade);
    case CSubstitute(_, _) => LoansStay(t, u);
    case CExit(member) => ExitKeeps(t, member);
  }

  lemma CorrectionStepKeeps(t: Tables, c: Command, u: Tables)
    requires Inv(t) && Perform(t, c) == Done(u) && (c.CRequest? || c.CApprove? || c.CReject?)
    ensures Inv(u)
  {
    match c
    case CRequest(maker, repayment) => RequestKeeps(t, maker, repayment);
    case CApprove(checker, id, day) => ApproveKeeps(t, checker, id, day);
    case CReject(checker, id, version, reasonGiven) => RejectKeeps(t, checker, id, version, reasonGiven);
  }

  lemma RecoveryStepKeeps(t: Tables, c: Command, u: Tables)
    requires Inv(t) && Perform(t, c) == Done(u) && (c.CReceipt? || c.CInsertReceipt?)
    ensures Inv(u)
  {
    match c
    case CReceipt(id, amount, day) => ReceiptKeeps(t, id, amount, day);
    case CInsertReceipt(id, txn, amount) => InsertReceiptKeeps(t, id, txn, amount);
  }

  lemma StepKeeps(t: Tables, c: Command)
    requires Inv(t)
    ensures Inv(Step(t, c))
  {
    var u := Step(t, c);
    if Perform(t, c).Done? {
      if c.CRequestWriteOff? || c.CVote? || c.CVoid? || c.CPostWriteOff? {
        WriteOffStepKeeps(t, c, u);
      } else if c.CRequest? || c.CApprove? || c.CReject? {
        CorrectionStepKeeps(t, c, u);
      } else if c.CReceipt? || c.CInsertReceipt? {
        RecoveryStepKeeps(t, c, u);
      } else {
        ServicingStepKeeps(t, c, u);
      }
    }
  }

  /** The invariant holds after every sequence of commands, refused ones included. */
  lemma {:induction false} RunKeeps(t: Tables, commands: seq<Command>)
    requires Inv(t)
    ensures Inv(Run(t, commands))
    decreases |commands|
  {
    if commands != [] {
      StepKeeps(t, commands[0]);
      RunKeeps(Step(t, commands[0]), commands[1..]);
    }
  }

  /** From empty tables the invariant is reached by every run. */
  lemma EveryRun(commands: seq<Command>)
    ensures Inv(Run(EMPTY, commands))
  {
    RunKeeps(EMPTY, commands);
  }
}
