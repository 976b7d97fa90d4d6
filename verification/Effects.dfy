/** What each service does and when, read off the tables alone: the conditions under which it
    goes through, and the rows, legs and figures it leaves. Nothing here refers to how the
    services compute them. */
module Effects {
  import opened Options
  import opened Schedules
  import opened Tables
  import opened Services
  import opened Invariant
  import opened Preservation
  import opened Adjustments

  // ---------------------------------------------------------------------------
  // Postings, account by account
  // ---------------------------------------------------------------------------

  /** One debit and one credit, nothing on any other account. */
  ghost predicate Transfers(legs: seq<Leg>, debited: Account, credited: Account, amount: int) {
    forall account ::
      && LegSum(legs, account, Debit) == (if account == debited then amount else 0)
      && LegSum(legs, account, Credit) == (if account == credited then amount else 0)
  }

  lemma TwoLegsTransfer(debited: Account, credited: Account, amount: nat)
    ensures Transfers([Leg(debited, Debit, amount), Leg(credited, Credit, amount)], debited, credited, amount)
  {
    var legs := [Leg(debited, Debit, amount), Leg(credited, Credit, amount)];
    forall account
      ensures LegSum(legs, account, Debit) == if account == debited then amount else 0
      ensures LegSum(legs, account, Credit) == if account == credited then amount else 0
    {
      assert legs[1..] == [Leg(credited, Credit, amount)] && legs[1..][1..] == [];
      assert LegSum(legs[1..], account, Debit) == 0;
      assert LegSum(legs[1..], account, Credit) == if account == credited then amount else 0;
    }
  }

  /** A repayment of `cash`: penalties, interest and principal credited, all of it debited. */
  ghost predicate Splits(legs: seq<Leg>, penalties: int, interest: int, principal: int) {
    && Moves(legs, Cash, penalties + interest + principal, 0) && Moves(legs, PenaltyIncome, 0, penalties)
    && Moves(legs, InterestIncome, 0, interest) && Moves(legs, LoansReceivable, 0, principal)
    && Moves(legs, WriteOffExpense, 0, 0) && Moves(legs, BadDebtRecoveries, 0, 0)
  }

  lemma RepaymentSplits(a: Allocation)
    ensures Splits(RepaymentLegs(a), a.penalties, a.interest, a.principal)
  {
    forall account ensures LegSum(RepaymentLegs(a), account, Debit) == if account == Cash then a.Total() else 0 {
      RepaymentLegSums(a, account, Debit);
    }
    RepaymentLegSums(a, Cash, Credit);
    RepaymentLegSums(a, PenaltyIncome, Credit);
    RepaymentLegSums(a, InterestIncome, Credit);
    RepaymentLegSums(a, LoansReceivable, Credit);
    RepaymentLegSums(a, WriteOffExpense, Credit);
    RepaymentLegSums(a, BadDebtRecoveries, Credit);
  }

  /** The guarantees of one loan end released, every other row and field stays. */
  ghost predicate Frees(before: seq<Guarantee>, after: seq<Guarantee>, loan: nat) {
    && |after| == |before|
    && forall g | 0 <= g < |before| ::
         && after[g].loan == before[g].loan && after[g].amount == before[g].amount
         && after[g].status == if before[g].loan == loan then Released else before[g].status
  }

  ghost predicate OnlyLoan(before: seq<Loan>, after: seq<Loan>, loan: nat) {
    |after| == |before| && forall l | 0 <= l < |before| && l != loan :: after[l] == before[l]
  }

  ghost predicate SameContract(l: LoanRow, m: LoanRow) {
    m.member == l.member && m.principal == l.principal && m.rows == l.rows
  }

  // ---------------------------------------------------------------------------
  // Repayment
  // ---------------------------------------------------------------------------

  /** What it takes to pay the loan off on that day. */
  function Payoff(l: Loan, day: int): int { l.penaltyDue + InterestDue(l.rows, l.paid, day) + l.balance }

  /** Any positive amount up to the payoff is accepted on an active loan, and nothing else. */
  lemma RepaymentAdmits(t: Tables, loan: nat, amount: int, day: int)
    requires Inv(t)
    ensures RecordRepayment(t, loan, amount, day).Done? <==>
      amount > 0 && loan < |t.loans| && t.loans[loan].status == Active && amount <= Payoff(t.loans[loan], day)
    ensures RecordRepayment(t, loan, amount, day) == Refused(Invalid) <==> amount <= 0
    ensures RecordRepayment(t, loan, amount, day) == Refused(NotFound) <==> amount > 0 && loan >= |t.loans|
  {
    if loan < |t.loans| {
      assert LoanOk(t, loan);
    }
  }

  /** The cash meets penalties first, then the interest due, then principal; a loan left
      without balance and penalties closes, healthy, and frees its sureties. */
  ghost predicate Repays(t: Tables, u: Tables, loan: nat, amount: int, day: int) {
    && loan < |t.loans| && OnlyLoan(t.loans, u.loans, loan)
    && var (l, m) := (t.loans[loan], u.loans[loan]);
       var penalties := Min(amount, l.penaltyDue);
       var interest := Min(amount - penalties, InterestDue(l.rows, l.paid, day));
       var principal := amount - penalties - interest;
       && Posts(t.txns, u.txns, l.member, amount, day, None)
       && Splits(u.txns[|t.txns|].legs, penalties, interest, principal)
       && u.repayments == t.repayments + [Repayment(loan, |t.txns|, amount)]
       && SameContract(l, m) && m.balance == l.balance - principal && m.penaltyDue == l.penaltyDue - penalties
       && m.paid == Pass(l.rows, l.paid, day, interest + principal)
       && (if m.balance == 0 && m.penaltyDue == 0
           then m.status == Closed && m.grade == Normal && Frees(t.guarantees, u.guarantees, loan)
           else m.status == Active && m.grade == l.grade && u.guarantees == t.guarantees)
       && u == t.(txns := u.txns, repayments := u.repayments, loans := u.loans, guarantees := u.guarantees)
  }

  lemma RepaymentEffect(t: Tables, u: Tables, loan: nat, amount: int, day: int)
    requires RecordRepayment(t, loan, amount, day) == Done(u)
    ensures Repays(t, u, loan, amount, day)
  {
    var l := t.loans[loan];
    var a := Allocate(amount, l.penaltyDue, InterestDue(l.rows, l.paid, day));
    RepaymentSplits(a);
    assert u == RepaymentWrites(t, loan, amount, day);
    var repaid := RepaidLoan(l, a, day);
    RepaymentRows(t, u, loan, amount, day, a, repaid);
    FreesReleased(t.guarantees, loan);
  }

  lemma RepaymentRows(t: Tables, u: Tables, loan: nat, amount: nat, day: int, a: Allocation, repaid: Loan)
    requires RepaymentRefusal(t, loan, amount, day) == None && u == RepaymentWrites(t, loan, amount, day)
    requires a == Allocate(amount, t.loans[loan].penaltyDue, InterestDue(t.loans[loan].rows, t.loans[loan].paid, day))
    requires repaid == RepaidLoan(t.loans[loan], a, day)
    ensures u.loans == t.loans[loan := repaid]
    ensures u.txns == t.txns + [Txn(t.loans[loan].member, amount, day, RepaymentLegs(a), None)]
    ensures u.repayments == t.repayments + [Repayment(loan, |t.txns|, amount)]
    ensures u.guarantees == if repaid.status == Closed then ReleaseFor(t.guarantees, loan) else t.guarantees
  {
  }

  lemma FreesReleased(guarantees: seq<Guarantee>, loan: nat)
    ensures Frees(guarantees, ReleaseFor(guarantees, loan), loan)
  {
  }

  ghost predicate NoLiveSurety(t: Tables, loan: nat) {
    forall g | 0 <= g < |t.guarantees| && t.guarantees[g].loan == loan :: t.guarantees[g].status == Released
  }

  /** Exactly the payoff is accepted, closes the loan and leaves no surety bound. */
  lemma PayoffCloses(t: Tables, loan: nat, amount: int, day: int) returns (u: Tables)
    requires Inv(t) && loan < |t.loans| && t.loans[loan].status == Active
    requires amount == Payoff(t.loans[loan], day) > 0
    ensures RecordRepayment(t, loan, amount, day) == Done(u) && Inv(u)
    ensures loan < |u.loans| && u.loans[loan].status == Closed && u.loans[loan].balance == 0 == u.loans[loan].penaltyDue
    ensures NoLiveSurety(u, loan)
  {
    assert LoanOk(t, loan);
    RepaymentAdmits(t, loan, amount, day);
    u := RecordRepayment(t, loan, amount, day).tables;
    StepKeeps(t, CRepay(loan, amount, day));
    RepaymentEffect(t, u, loan, amount, day);
  }

  // ---------------------------------------------------------------------------
  // Repayment adjustment
  // ---------------------------------------------------------------------------

  /** The claim a request appends: what was repaid, and how the loan stood. */
  ghost predicate Files(t: Tables, u: Tables, maker: nat, repayment: nat) {
    && repayment < |t.repayments| && u == t.(adjustments := u.adjustments)
    && var r := t.repayments[repayment];
       && r.loan < |t.loans| && r.txn < |t.txns|
       && |u.adjustments| == |t.adjustments| + 1 && u.adjustments[..|t.adjustments|] == t.adjustments
       && var (a, l, legs) := (u.adjustments[|t.adjustments|], t.loans[r.loan], t.txns[r.txn].legs);
          && a.repayment == repayment && a.loan == r.loan && a.original == r.txn && a.amount == r.amount
          && a.maker == maker && a.checker == None && a.reversal == None
          && a.status == PendingApproval && a.version == 1
          && a.parts.penalties == LegSum(legs, PenaltyIncome, Credit)
          && a.parts.interest == LegSum(legs, InterestIncome, Credit)
          && a.parts.principal == LegSum(legs, LoansReceivable, Credit)
          && a.balanceAtRequest == l.balance && a.penaltyAtRequest == l.penaltyDue && a.statusAtRequest == l.status
          && (a.reopens <==> l.status == Closed)
  }

  lemma RequestEffect(t: Tables, u: Tables, maker: Actor, repayment: nat)
    requires RequestAdjustment(t, maker, repayment) == Done(u)
    ensures Files(t, u, maker.id, repayment)
  {
  }

  /** One posting cancels the original leg by leg, one negative row, one decided claim, and a
      loan with its parts back, active again, its schedule replayed without the repayment. */
  ghost predicate Corrects(t: Tables, u: Tables, checker: nat, id: nat, day: int) {
    && id < |t.adjustments|
    && var a := t.adjustments[id];
       && a.original < |t.txns| && a.loan < |t.loans| && OnlyLoan(t.loans, u.loans, a.loan)
       && var (original, l, m) := (t.txns[a.original], t.loans[a.loan], u.loans[a.loan]);
          && Posts(t.txns, u.txns, original.member, original.amount, day, Some(a.original))
          && Cancels(u.txns[|t.txns|].legs, original.legs)
          && u.repayments == t.repayments + [Repayment(a.loan, |t.txns|, 0 - a.amount)]
          && u.adjustments == t.adjustments[id := a.(status := Posted, checker := Some(checker),
                                                     reversal := Some(|t.txns|), version := a.version + 1)]
          && SameContract(l, m) && m.grade == l.grade && m.status == Active
          && m.balance == l.balance + LegSum(original.legs, LoansReceivable, Credit)
          && m.penaltyDue == l.penaltyDue + LegSum(original.legs, PenaltyIncome, Credit)
          && m.paid == ReplayPaid(l.rows, History(u, a.loan))
          && u == t.(txns := u.txns, repayments := u.repayments, adjustments := u.adjustments, loans := u.loans)
  }

  lemma ApprovalEffect(t: Tables, u: Tables, checker: Actor, id: nat, day: int)
    requires Inv(t) && ApproveAdjustment(t, checker, id, day) == Done(u)
    ensures Corrects(t, u, checker.id, id, day)
  {
    var a := t.adjustments[id];
    assert AdjustmentRow(t.txns, t.repayments, a);
    assert RepaymentRow(t.loans, t.txns, t.repayments[a.repayment]);
    MirrorCancels(t.txns[a.original].legs);
    assert u.txns[|t.txns|] == Reversal(t.txns[a.original], a.original, day);
  }

  /** One claim decided as rejected by that checker, nothing else. */
  ghost predicate Declines(t: Tables, u: Tables, checker: nat, id: nat) {
    && id < |t.adjustments|
    && var a := t.adjustments[id];
       u == t.(adjustments := t.adjustments[id := a.(status := Rejected, checker := Some(checker),
                                                     version := a.version + 1)])
  }

  /** A reasoned rejection of the version read, by somebody who may check. */
  lemma RejectionAdmits(t: Tables, checker: Actor, id: nat, version: nat, reasonGiven: bool)
    ensures RejectAdjustment(t, checker, id, version, reasonGiven).Done? <==>
      && reasonGiven && id < |t.adjustments|
      && var a := t.adjustments[id];
         && a.status == PendingApproval && a.version == version
         && checker.id != a.maker && checker.known && !checker.assurance
  {
  }

  // ---------------------------------------------------------------------------
  // Write-off
  // ---------------------------------------------------------------------------

  lemma WriteOffRequestAdmits(t: Tables, actor: nat, loan: nat)
    ensures RequestWriteOff(t, actor, loan).Done? <==>
      && loan < |t.loans|
      && var l := t.loans[loan];
         && l.status == Active && l.grade != Normal && l.grade != Watch && l.balance + l.penaltyDue > 0
         && forall w | 0 <= w < |t.writeOffs| && t.writeOffs[w].loan == loan :: t.writeOffs[w].status == Voided
  {
  }

  /** One more write-off for the committee, with the figures of that moment. */
  ghost predicate Opens(t: Tables, u: Tables, actor: nat, loan: nat) {
    && loan < |t.loans| && u == t.(writeOffs := u.writeOffs)
    && |u.writeOffs| == |t.writeOffs| + 1 && u.writeOffs[..|t.writeOffs|] == t.writeOffs
    && var (w, l) := (u.writeOffs[|t.writeOffs|], t.loans[loan]);
       && w.loan == loan && w.member == l.member && w.requester == actor && w.votes == map[] && w.status == Requested
       && w.balance == l.balance && w.penaltyDue == l.penaltyDue && w.total == l.balance + l.penaltyDue
       && w.txn == None && w.version == 1
  }

  lemma VoteAdmits(t: Tables, voter: nat, id: nat, vote: bool, quorum: nat)
    ensures CastVote(t, voter, id, vote, quorum).Done? <==>
      && id < |t.writeOffs| && quorum > 0
      && var w := t.writeOffs[id]; w.status == Requested && voter != w.requester && voter !in w.votes
  {
  }

  lemma VoidAdmits(t: Tables, id: nat, version: nat)
    ensures VoidWriteOff(t, id, version).Done? <==>
      && id < |t.writeOffs|
      && var w := t.writeOffs[id]; (w.status == Requested || w.status == Approved) && w.version == version
  {
  }

  /** An approved write-off is posted by anyone but its requester, as long as both figures of
      the loan are still the ones approved. */
  lemma PostingAdmits(t: Tables, actor: nat, id: nat, day: int)
    requires Inv(t)
    ensures PostWriteOff(t, actor, id, day).Done? <==>
      && id < |t.writeOffs|
      && var w := t.writeOffs[id];
         && w.status == Approved && actor != w.requester && w.loan < |t.loans|
         && var l := t.loans[w.loan];
            l.status == Active && l.balance == w.balance && l.penaltyDue == w.penaltyDue
  {
  }

  /** The balance moves from the receivable to the write-off expense, penalties move nothing;
      the loan holds zeros and the row its posting. */
  ghost predicate Derecognises(t: Tables, u: Tables, id: nat, day: int) {
    && id < |t.writeOffs| && t.writeOffs[id].loan < |t.loans| && OnlyLoan(t.loans, u.loans, t.writeOffs[id].loan)
    && var w := t.writeOffs[id];
       var (l, m) := (t.loans[w.loan], u.loans[w.loan]);
       && (if w.balance > 0
           then Posts(t.txns, u.txns, w.member, w.balance, day, None)
                && Transfers(u.txns[|t.txns|].legs, WriteOffExpense, LoansReceivable, w.balance)
           else u.txns == t.txns)
       && m == l.(balance := 0, penaltyDue := 0, status := WrittenOff)
       && u.writeOffs == t.writeOffs[id := w.(status := Executed, version := w.version + 1,
                                              txn := if w.balance > 0 then Some(|t.txns|) else None)]
       && u == t.(txns := u.txns, loans := u.loans, writeOffs := u.writeOffs)
  }

  lemma PostingEffect(t: Tables, u: Tables, actor: nat, id: nat, day: int)
    requires Inv(t) && PostWriteOff(t, actor, id, day) == Done(u)
    ensures Derecognises(t, u, id, day)
  {
    var w := t.writeOffs[id];
    if w.balance > 0 {
      TwoLegsTransfer(WriteOffExpense, LoansReceivable, w.balance);
      assert u.txns[|t.txns|] == WriteOffTxn(w, day);
    }
  }

  // ---------------------------------------------------------------------------
  // Recovery receipts
  // ---------------------------------------------------------------------------

  function Outstanding(t: Tables, id: nat): int
    requires id < |t.writeOffs|
  {
    t.writeOffs[id].total - Recovered(t.receipts, id)
  }

  /** Any positive amount up to what is outstanding, from a member who has not left. */
  lemma ReceiptAdmits(t: Tables, id: nat, amount: int, day: int)
    requires Inv(t)
    ensures RecordReceipt(t, id, amount, day).Done? <==>
      && amount > 0 && id < |t.writeOffs| && t.writeOffs[id].status == Executed
      && t.writeOffs[id].member !in t.exited && amount <= Outstanding(t, id)
    ensures RecordReceipt(t, id, amount, day) == Refused(Invalid) <==> amount <= 0
    ensures RecordReceipt(t, id, amount, day) == Refused(NotFound) <==> amount > 0 && id >= |t.writeOffs|
  {
    if id < |t.writeOffs| {
      assert WriteOffRow(t.loans, t.writeOffs[id]);
      if t.writeOffs[id].status == Executed {
        ExecutedFound(t.writeOffs, id);
        assert LoanOk(t, t.writeOffs[id].loan);
      }
    }
  }

  /** Cash against bad debt recovered, one receipt, and the sureties exactly at completion. */
  ghost predicate Recovers(t: Tables, u: Tables, id: nat, amount: int, day: int) {
    && id < |t.writeOffs| && amount > 0
    && Posts(t.txns, u.txns, t.writeOffs[id].member, amount, day, None)
    && Transfers(u.txns[|t.txns|].legs, Cash, BadDebtRecoveries, amount)
    && u.receipts == t.receipts + [Receipt(id, |t.txns|, amount)]
    && Outstanding(u.(writeOffs := t.writeOffs), id) == Outstanding(t, id) - amount >= 0
    && (if amount == Outstanding(t, id) then Frees(t.guarantees, u.guarantees, t.writeOffs[id].loan)
        else u.guarantees == t.guarantees)
    && u == t.(txns := u.txns, receipts := u.receipts, guarantees := u.guarantees)
  }

  lemma ReceiptEffect(t: Tables, u: Tables, id: nat, amount: int, day: int)
    requires Inv(t) && RecordReceipt(t, id, amount, day) == Done(u)
    ensures Recovers(t, u, id, amount, day)
  {
    TwoLegsTransfer(Cash, BadDebtRecoveries, amount);
    ReceiptAdds(t.receipts, Receipt(id, |t.txns|, amount), id);
    assert u.txns[|t.txns|].legs == [Leg(Cash, Debit, amount), Leg(BadDebtRecoveries, Credit, amount)];
  }

  /** Exactly what is outstanding is accepted and leaves no surety of the loan bound. */
  lemma LastReceiptDischarges(t: Tables, id: nat, amount: int, day: int) returns (u: Tables)
    requires Inv(t) && id < |t.writeOffs| && t.writeOffs[id].status == Executed
    requires t.writeOffs[id].member !in t.exited && amount == Outstanding(t, id) > 0
    ensures RecordReceipt(t, id, amount, day) == Done(u) && Inv(u)
    ensures NoLiveSurety(u, t.writeOffs[id].loan)
  {
    ReceiptAdmits(t, id, amount, day);
    u := RecordReceipt(t, id, amount, day).tables;
    ReceiptKeeps(t, id, amount, day);
    ReceiptEffect(t, u, id, amount, day);
  }

  // ---------------------------------------------------------------------------
  // The other services
  // ---------------------------------------------------------------------------

  /** A member leaves once, and never with an executed claim short of its total. */
  lemma ExitAdmits(t: Tables, member: nat)
    ensures ExitMember(t, member).Done? <==>
      && member !in t.exited
      && forall w | 0 <= w < |t.writeOffs| && t.writeOffs[w].member == member && t.writeOffs[w].status == Executed ::
           Recovered(t.receipts, w) >= t.writeOffs[w].total
  {
  }

  /** A day's penalty is claimed once per loan, for a positive amount, while it is active. */
  lemma AccrualAdmits(t: Tables, loan: nat, day: int, amount: nat)
    ensures AccruePenalty(t, loan, day, amount).Done? <==>
      && loan < |t.loans| && t.loans[loan].status == Active && amount > 0
      && forall i | 0 <= i < |t.accruals| && t.accruals[i].loan == loan :: t.accruals[i].day != day
  {
  }

  /** A live surety is swapped for one of at least its amount; none given means the same. */
  lemma SubstitutionAdmits(t: Tables, g: nat, cover: Option<nat>)
    ensures Substitute(t, g, cover).Done? <==>
      && g < |t.guarantees| && t.guarantees[g].status == Live
      && (cover.Some? ==> cover.value >= t.guarantees[g].amount)
  {
  }

  /** A loan starts with its whole principal, unpaid rows and live sureties, for any current
      member and any positive principal. */
  lemma Disbursal(t: Tables, member: nat, principal: nat, rows: Schedule, sureties: seq<nat>)
    ensures var outcome := Disburse(t, member, principal, rows, sureties);
      && (outcome.Done? <==> member !in t.exited && principal > 0)
      && (outcome.Done? ==>
            var (u, loan) := (outcome.tables, |t.loans|);
            && u == t.(loans := u.loans, guarantees := u.guarantees)
            && |u.loans| == loan + 1 && u.loans[..loan] == t.loans
            && var l := u.loans[loan];
               && l.member == member && l.principal == l.balance == principal && l.penaltyDue == 0
               && l.status == Active && l.grade == Normal && l.rows == rows
               && (forall i | 0 <= i < |rows| :: l.paid[i] == 0)
               && |u.guarantees| == |t.guarantees| + |sureties| && u.guarantees[..|t.guarantees|] == t.guarantees
               && forall i | 0 <= i < |sureties| ::
                    u.guarantees[|t.guarantees| + i] == Guarantee(loan, sureties[i], Live))
  {
  }

  /** What leaving does to these tables: the member's active loans are settled and closed, and
      every surety behind any of their loans is released. */
  ghost predicate Leaves(t: Tables, u: Tables, member: nat) {
    && u == t.(loans := u.loans, guarantees := u.guarantees, exited := t.exited + {member})
    && |u.loans| == |t.loans| && |u.guarantees| == |t.guarantees|
    && (forall l | 0 <= l < |t.loans| ::
          if t.loans[l].member == member && t.loans[l].status == Active then
            && SameContract(t.loans[l], u.loans[l]) && u.loans[l].paid == t.loans[l].paid
            && u.loans[l].balance == 0 == u.loans[l].penaltyDue
            && u.loans[l].status == Closed && u.loans[l].grade == Normal
          else u.loans[l] == t.loans[l])
    && (forall g | 0 <= g < |t.guarantees| ::
          var loan := t.guarantees[g].loan;
          && u.guarantees[g].loan == loan && u.guarantees[g].amount == t.guarantees[g].amount
          && u.guarantees[g].status ==
             if loan < |t.loans| && t.loans[loan].member == member then Released else t.guarantees[g].status)
  }

  lemma ExitEffect(t: Tables, u: Tables, member: nat)
    requires ExitMember(t, member) == Done(u)
    ensures Leaves(t, u, member)
  {
  }

  /** Accruing and grading touch one active loan, and of it one figure and the grade. */
  lemma NightlyEffects(t: Tables, loan: nat, day: int, amount: nat, grade: LoanClass)
    ensures var outcome := AccruePenalty(t, loan, day, amount);
      outcome.Done? ==>
        && loan < |t.loans| && OnlyLoan(t.loans, outcome.tables.loans, loan)
        && outcome.tables.loans[loan] == t.loans[loan].(penaltyDue := t.loans[loan].penaltyDue + amount)
        && outcome.tables == t.(loans := outcome.tables.loans,
                                accruals := t.accruals + [Accrual(loan, day, amount)])
    ensures var outcome := Classify(t, loan, grade);
      if loan < |t.loans| && t.loans[loan].status == Active
      then outcome == Done(t.(loans := t.loans[loan := t.loans[loan].(grade := grade)]))
      else outcome == Refused(Conflict)
  {
  }

  /** A receipt row by direct SQL: within the cap of an executed claim, and only the row. */
  lemma DirectReceipt(t: Tables, id: nat, txn: nat, amount: int)
    ensures var outcome := InsertReceipt(t, id, txn, amount);
      && (outcome.Done? <==>
            && amount > 0 && id < |t.writeOffs| && txn < |t.txns|
            && t.writeOffs[id].status == Executed && amount <= Outstanding(t, id))
      && (outcome.Done? ==> outcome.tables == t.(receipts := t.receipts + [Receipt(id, txn, amount)]))
  {
  }

  // ---------------------------------------------------------------------------
  // How a refusal is answered
  // ---------------------------------------------------------------------------

  /** The answer of a service that went through, or refused as invalid, unknown or forbidden
      exactly under those conditions, and as a conflict in every other case. */
  ghost predicate Answers(outcome: Outcome, done: bool, invalid: bool, unknown: bool, forbidden: bool) {
    && (outcome.Done? <==> done)
    && (outcome == Refused(Invalid) <==> invalid)
    && (outcome == Refused(NotFound) <==> unknown)
    && (outcome == Refused(Forbidden) <==> forbidden)
    && (outcome == Refused(Conflict) <==> !done && !invalid && !unknown && !forbidden)
  }

  lemma CashAnswers(t: Tables, id: nat, amount: int, day: int)
    requires Inv(t)
    ensures Answers(RecordRepayment(t, id, amount, day),
              amount > 0 && id < |t.loans| && t.loans[id].status == Active && amount <= Payoff(t.loans[id], day),
              amount <= 0, amount > 0 && id >= |t.loans|, false)
    ensures Answers(RecordReceipt(t, id, amount, day),
              amount > 0 && id < |t.writeOffs| && t.writeOffs[id].status == Executed
              && t.writeOffs[id].member !in t.exited && amount <= Outstanding(t, id),
              amount <= 0, amount > 0 && id >= |t.writeOffs|, false)
  {
    RepaymentAdmits(t, id, amount, day);
    ReceiptAdmits(t, id, amount, day);
  }

  /** A maker over its band is forbidden, once nothing but an existing claim stands in the way. */
  lemma RequestAnswers(t: Tables, maker: Actor, repayment: nat)
    requires Inv(t)
    ensures var open := Correctable(t, repayment) && !Discharged(t, t.repayments[repayment].loan);
      var banded := open && WithinBand(maker, t.repayments[repayment].amount);
      Answers(RequestAdjustment(t, maker, repayment), banded && Unclaimed(t, repayment),
              false, repayment >= |t.repayments|, open && !banded)
  {
    RequestAdmits(t, maker, repayment);
    ChainAdmits(t, repayment);
  }

  /** A checker the users table does not vouch for is forbidden before the loan is looked at,
      one over its band after everything else. */
  lemma ApprovalAnswers(t: Tables, checker: Actor, id: nat, day: int)
    requires Inv(t)
    ensures Answers(ApproveAdjustment(t, checker, id, day), id < |t.adjustments| && Approvable(t, checker, id), false,
              id >= |t.adjustments|,
              && id < |t.adjustments| && t.adjustments[id].status == PendingApproval
              && checker.id != t.adjustments[id].maker
              && (!checker.known
                  || (!WithinBand(checker, t.adjustments[id].amount)
                      && Approvable(t, checker.(ceiling := None), id))))
  {
    if id < |t.adjustments| {
      SelfCheckNeverFails(t, checker, id, day);
      ApprovalAdmits(t, checker, id, day);
      ApprovalAdmits(t, checker.(ceiling := None), id, day);
      assert AdjustmentRow(t.txns, t.repayments, t.adjustments[id]);
      ChainAdmits(t, t.adjustments[id].repayment);
    }
  }

  lemma RejectionAnswers(t: Tables, checker: Actor, id: nat, version: nat, reasonGiven: bool)
    ensures var pending := id < |t.adjustments| && t.adjustments[id].status == PendingApproval;
      var distinct := pending && checker.id != t.adjustments[id].maker;
      Answers(RejectAdjustment(t, checker, id, version, reasonGiven),
              reasonGiven && distinct && checker.known && !checker.assurance && t.adjustments[id].version == version,
              !reasonGiven, reasonGiven && id >= |t.adjustments|, reasonGiven && distinct && !checker.known)
  {
  }

  lemma WriteOffAnswers(t: Tables, actor: nat, id: nat, version: nat, vote: bool, quorum: nat, day: int)
    requires Inv(t)
    ensures id >= |t.loans| <==> RequestWriteOff(t, actor, id) == Refused(NotFound)
    ensures RequestWriteOff(t, actor, id).Refused? && id < |t.loans| ==>
              RequestWriteOff(t, actor, id) == Refused(Conflict)
    ensures var open := id < |t.writeOffs| && t.writeOffs[id].status == Requested;
      var voter := open && actor != t.writeOffs[id].requester && actor !in t.writeOffs[id].votes;
      Answers(CastVote(t, actor, id, vote, quorum), voter && quorum > 0, voter && quorum == 0, id >= |t.writeOffs|,
              open && actor == t.writeOffs[id].requester)
    ensures var open := id < |t.writeOffs|
                        && (t.writeOffs[id].status == Requested || t.writeOffs[id].status == Approved);
      Answers(VoidWriteOff(t, id, version), open && t.writeOffs[id].version == version, false, id >= |t.writeOffs|,
              false)
    ensures var approved := id < |t.writeOffs| && t.writeOffs[id].status == Approved;
      var asApproved := approved && t.writeOffs[id].loan < |t.loans|
                        && t.loans[t.writeOffs[id].loan].status == Active
                        && t.loans[t.writeOffs[id].loan].balance == t.writeOffs[id].balance
                        && t.loans[t.writeOffs[id].loan].penaltyDue == t.writeOffs[id].penaltyDue;
      Answers(PostWriteOff(t, actor, id, day), asApproved && actor != t.writeOffs[id].requester, false,
              id >= |t.writeOffs|, approved && actor == t.writeOffs[id].requester)
  {
    if id < |t.writeOffs| {
      assert WriteOffRow(t.loans, t.writeOffs[id]);
    }
  }

  lemma OtherAnswers(t: Tables, id: nat, member: nat, amount: nat, rows: Schedule, cover: Option<nat>, cash: int)
    ensures Answers(Disburse(t, member, amount, rows, []), member !in t.exited && amount > 0,
              member !in t.exited && amount == 0, false, false)
    ensures ExitMember(t, member).Refused? ==> ExitMember(t, member) == Refused(Conflict)
    ensures var live := id < |t.guarantees| && t.guarantees[id].status == Live;
      var enough := cover.Some? ==> live && cover.value >= t.guarantees[id].amount;
      Answers(Substitute(t, id, cover), live && enough, live && !enough, id >= |t.guarantees|, false)
    ensures var known := id < |t.writeOffs| && member < |t.txns|;
      Answers(InsertReceipt(t, id, member, cash),
              cash > 0 && known && t.writeOffs[id].status == Executed && cash <= Outstanding(t, id),
              cash <= 0, cash > 0 && !known, false)
  {
  }

  /** On every run from empty tables a loan's figures are what the ledger says: of a current
      member's loan that is not written off, the principal less its receivable legs and the
      accrued less the collected penalties; a written-off or closed one holds zeros. */
  lemma FiguresFollowTheLedger(commands: seq<Command>, loan: nat)
    requires loan < |Run(EMPTY, commands).loans|
    ensures var t := Run(EMPTY, commands);
      var (l, n) := (t.loans[loan], |t.repayments|);
      && l.balance >= 0 && l.penaltyDue >= 0
      && (l.status != Active ==> l.balance == 0 == l.penaltyDue)
      && (l.member !in t.exited && l.status != WrittenOff ==>
            && l.balance == l.principal - Net(t.txns, t.repayments, loan, n)
            && l.penaltyDue == Accrued(t.accruals, loan) - Taken(t.txns, t.repayments, t.adjustments, loan, n))
      && (l.member in t.exited ==> l.status != Active)
  {
    EveryRun(commands);
    assert LoanOk(Run(EMPTY, commands), loan);
  }
}
