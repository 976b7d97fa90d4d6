/** The correction services as they run: one object whose tables the methods update row by
    row, each method one transaction. A refusal leaves every table as it was; otherwise the
    tables end exactly where the specification says. The object keeps the global invariant
    through every call, and each method states what that gives its caller. */
module LoanDesk {
  import opened Options
  import opened Schedules
  import opened Tables
  import opened Services
  import opened Invariant
  import opened Preservation
  import opened Adjustments
  import opened Effects
  import Claims

  /** A method's result against the specified outcome. */
  ghost predicate Settles(outcome: Outcome, before: Tables, why: Option<Refusal>, after: Tables) {
    match outcome
    case Done(tables) => why == None && after == tables
    case Refused(reason) => why == Some(reason) && after == before
  }

  /** The object keeps the global invariant through every service call. */
  lemma SettledKeeps(before: Tables, c: Command, why: Option<Refusal>, after: Tables)
    requires Inv(before) && Settles(Perform(before, c), before, why, after)
    ensures Inv(after) && after == Step(before, c)
  {
    StepKeeps(before, c);
  }

  // ---------------------------------------------------------------------------
  // What the invariant gives a caller
  // ---------------------------------------------------------------------------

  /** A fresh claim waits for nothing but a checker: any entitled one can approve it. */
  lemma RequestIsApprovable(t: Tables, u: Tables, maker: Actor, repayment: nat)
    requires Inv(t) && Inv(u) && RequestAdjustment(t, maker, repayment) == Done(u)
    ensures repayment < |t.repayments|
    ensures forall checker, day | Entitled(checker, maker.id, t.repayments[repayment].amount) ::
              ApproveAdjustment(u, checker, |t.adjustments|, day).Done?
  {
    forall checker, day | Entitled(checker, maker.id, t.repayments[repayment].amount)
      ensures ApproveAdjustment(u, checker, |t.adjustments|, day).Done?
    {
      ApprovalAdmits(u, checker, |t.adjustments|, day);
    }
  }

  /** A rejection leaves the repayment free for another claim. */
  lemma RejectionFrees(t: Tables, u: Tables, checker: Actor, id: nat, version: nat, reasonGiven: bool)
    requires Inv(t) && RejectAdjustment(t, checker, id, version, reasonGiven) == Done(u)
    ensures id < |t.adjustments| && Unclaimed(u, t.adjustments[id].repayment)
  {
    forall k | 0 <= k < |u.adjustments| && u.adjustments[k].repayment == t.adjustments[id].repayment
      ensures u.adjustments[k].status == Rejected
    {
      assert t.adjustments[k].repayment == t.adjustments[id].repayment;
    }
  }

  predicate NoneOpen(t: Tables, loan: nat) {
    forall w | 0 <= w < |t.writeOffs| && t.writeOffs[w].loan == loan :: t.writeOffs[w].status == Voided
  }

  /** A void leaves the loan free for another write-off. */
  lemma VoidFrees(t: Tables, u: Tables, id: nat, version: nat)
    requires Inv(t) && VoidWriteOff(t, id, version) == Done(u)
    ensures id < |t.writeOffs| && NoneOpen(u, t.writeOffs[id].loan)
  {
    forall w | 0 <= w < |u.writeOffs| && u.writeOffs[w].loan == t.writeOffs[id].loan
      ensures u.writeOffs[w].status == Voided
    {
      assert t.writeOffs[w].loan == t.writeOffs[id].loan;
    }
  }

  /** What the ledger says is owed on a loan: principal less receivable legs, plus accrued
      less collected penalties. */
  function Owed(t: Tables, loan: nat): int
    requires loan < |t.loans|
  {
    var n := |t.repayments|;
    ReconstructedBalance(t, loan)
    + Accrued(t.accruals, loan) - Taken(t.txns, t.repayments, t.adjustments, loan, n)
  }

  /** An active loan holds exactly what the ledger says, balance and penalties apart. */
  lemma ActiveFigures(t: Tables, loan: nat)
    requires Inv(t) && loan < |t.loans| && t.loans[loan].status == Active
    ensures t.loans[loan].balance == ReconstructedBalance(t, loan)
    ensures t.loans[loan].balance + t.loans[loan].penaltyDue == Owed(t, loan)
  {
    assert LoanOk(t, loan);
  }

  /** After a repayment the loan, still open or just closed, holds what the ledger says. */
  lemma CurrentFigures(t: Tables, u: Tables, loan: nat)
    requires Inv(t) && Inv(u) && loan < |t.loans| && t.loans[loan].status == Active
    requires u.exited == t.exited && loan < |u.loans| && u.loans[loan].member == t.loans[loan].member
    requires u.loans[loan].status != WrittenOff
    ensures u.loans[loan].balance == ReconstructedBalance(u, loan)
  {
    assert LoanOk(t, loan) && LoanOk(u, loan);
  }

  /** What a caller of an accepted repayment knows. */
  lemma RepaymentGains(t: Tables, u: Tables, loan: nat, amount: int, day: int)
    requires Inv(t) && Inv(u) && RecordRepayment(t, loan, amount, day) == Done(u)
    ensures Repays(t, u, loan, amount, day) && u.loans[loan].balance == ReconstructedBalance(u, loan)
    ensures amount == Payoff(t.loans[loan], day) ==>
      && u.loans[loan].status == Closed && u.loans[loan].balance == 0 == u.loans[loan].penaltyDue
      && NoLiveSurety(u, loan)
  {
    RepaymentEffect(t, u, loan, amount, day);
    CurrentFigures(t, u, loan);
    if amount == Payoff(t.loans[loan], day) {
      var v := PayoffCloses(t, loan, amount, day);
    }
  }

  /** The loan is written off with a claim for what was owed, and its receivable nets to
      zero in the ledger. */
  ghost predicate ClaimBooked(t: Tables, u: Tables, id: nat) {
    && id < |u.writeOffs| && u.writeOffs[id].loan < |u.loans| && |u.loans| == |t.loans|
    && u.loans[u.writeOffs[id].loan].status == WrittenOff && Claims.NetReceivable(u, id) == 0
    && u.writeOffs[id].total == Owed(t, u.writeOffs[id].loan)
  }

  lemma PostingBooksClaim(t: Tables, u: Tables, actor: nat, id: nat, day: int)
    requires Inv(t) && Inv(u) && PostWriteOff(t, actor, id, day) == Done(u)
    ensures ClaimBooked(t, u, id)
  {
    Claims.ExecutedClearsReceivable(u, id);
    Claims.ClaimIsWhatWasOwed(t, actor, id, day);
  }

  lemma OneVoteMore(votes: map<nat, bool>, voter: nat, vote: bool, side: bool)
    requires voter !in votes
    ensures Count(votes[voter := vote], side) == Count(votes, side) + if vote == side then 1 else 0
  {
    var before, after := Voters(votes, side), Voters(votes[voter := vote], side);
    if vote == side {
      assert after == before + {voter};
    } else {
      assert after == before;
    }
  }

  // ---------------------------------------------------------------------------
  // The object
  // ---------------------------------------------------------------------------

  class Desk {
    var loans: seq<Loan>
    var txns: seq<Txn>
    var repayments: seq<Repayment>
    var adjustments: seq<Adjustment>
    var writeOffs: seq<WriteOff>
    var receipts: seq<Receipt>
    var guarantees: seq<Guarantee>
    var accruals: seq<Accrual>
    var exited: set<nat>

    function Snapshot(): Tables
      reads this
    {
      Tables(loans, txns, repayments, adjustments, writeOffs, receipts, guarantees, accruals, exited)
    }

    ghost predicate Valid()
      reads this
    {
      Inv(Snapshot())
    }

    constructor ()
      ensures Valid() && Snapshot() == EMPTY
    {
      loans, txns, repayments, adjustments := [], [], [], [];
      writeOffs, receipts, guarantees, accruals, exited := [], [], [], [], {};
    }

    /** Close a fully repaid loan, reset its class and free its sureties. */
    method CloseLoan(loan: nat)
      requires loan < |loans|
      modifies this`loans, this`guarantees
      ensures loans == old(loans)[loan := old(loans[loan]).(status := Closed, grade := Normal)]
      ensures guarantees == ReleaseFor(old(guarantees), loan)
    {
      loans := loans[loan := loans[loan].(status := Closed, grade := Normal)];
      guarantees := ReleaseFor(guarantees, loan);
    }

    /** Apply the cash to the due rows, reduce the loan, and close it when nothing is left. */
    method ServiceLoan(loan: nat, allocation: Allocation, day: int)
      requires loan < |loans| && loans[loan].status == Active
      modifies this`loans, this`guarantees
      ensures loans == old(loans)[loan := RepaidLoan(old(loans[loan]), allocation, day)]
      ensures guarantees == if loans[loan].status == Closed then ReleaseFor(old(guarantees), loan) else old(guarantees)
    {
      var l := loans[loan];
      var paid := ApplyCash(l.rows, l.paid, day, allocation.interest + allocation.principal);
      var balance, penaltyDue := l.balance - allocation.principal, l.penaltyDue - allocation.penalties;
      loans := loans[loan := l.(balance := balance, penaltyDue := penaltyDue, paid := paid)];
      if balance == 0 && penaltyDue == 0 {
        CloseLoan(loan);
      }
    }

    /** Lock, allocate, post the split legs, and service the loan. */
    method RecordRepayment(loan: nat, amount: int, day: int) returns (why: Option<Refusal>)
      requires Valid()
      modifies this
      ensures Valid()
      ensures Settles(Services.RecordRepayment(old(Snapshot()), loan, amount, day), old(Snapshot()), why, Snapshot())
      ensures why == None <==>
                && amount > 0 && loan < |old(loans)| && old(loans)[loan].status == Active
                && amount <= Payoff(old(loans)[loan], day)
      ensures why == Some(Invalid) <==> amount <= 0
      ensures why == Some(NotFound) <==> amount > 0 && loan >= |old(loans)|
      ensures why == None ==> Repays(old(Snapshot()), Snapshot(), loan, amount, day)
      ensures why == None ==> loans[loan].balance == ReconstructedBalance(Snapshot(), loan)
      ensures why == None && amount == Payoff(old(loans)[loan], day) ==>
                && loans[loan].status == Closed && loans[loan].balance == 0 == loans[loan].penaltyDue
                && NoLiveSurety(Snapshot(), loan)
    {
      ghost var before := Snapshot();
      RepaymentAdmits(before, loan, amount, day);
      if amount <= 0 {
        return Some(Invalid);
      }
      if loan >= |loans| {
        return Some(NotFound);
      }
      var l := loans[loan];
      if l.status != Active {
        return Some(Conflict);
      }
      var interestDue := InterestDue(l.rows, l.paid, day);
      if l.penaltyDue < 0 || amount > l.penaltyDue + interestDue + l.balance {
        return Some(Conflict);
      }
      var allocation := Allocate(amount, l.penaltyDue, interestDue);
      repayments := repayments + [Repayment(loan, |txns|, amount)];
      txns := txns + [Txn(l.member, amount, day, RepaymentLegs(allocation), None)];
      ServiceLoan(loan, allocation, day);
      why := None;
      SettledKeeps(before, CRepay(loan, amount, day), why, Snapshot());
      RepaymentGains(before, Snapshot(), loan, amount, day);
    }

    /** The checks both phases of an adjustment run under their locks: the repayment, its
        transaction, its member and its loan must all still admit a correction. */
    method LockChain(repayment: nat) returns (why: Option<Refusal>)
      requires Valid()
      ensures why == ChainRefusal(Snapshot(), repayment)
      ensures why == None <==> Correctable(Snapshot(), repayment)
      ensures why == Some(NotFound) <==> repayment >= |repayments|
      ensures why != None ==> ShutToCorrection(Snapshot(), repayment)
    {
      ChainAdmits(Snapshot(), repayment);
      if repayment >= |repayments| {
        return Some(NotFound);
      }
      var r := repayments[repayment];
      if r.amount <= 0 {
        return Some(Conflict);
      }
      if r.txn >= |txns| {
        return Some(NotFound);
      }
      var member := txns[r.txn].member;
      if member in exited {
        return Some(Conflict);
      }
      if r.loan >= |loans| {
        return Some(NotFound);
      }
      if loans[r.loan].member != member || loans[r.loan].status == WrittenOff {
        return Some(Conflict);
      }
      return None;
    }

    /** Phase one: the maker pins the allocation and the loan's figures in a pending claim. */
    method RequestAdjustment(maker: Actor, repayment: nat) returns (why: Option<Refusal>)
      requires Valid()
      modifies this`adjustments
      ensures Valid()
      ensures Settles(Services.RequestAdjustment(old(Snapshot()), maker, repayment), old(Snapshot()), why, Snapshot())
      ensures why == None <==>
                && Correctable(old(Snapshot()), repayment) && Unclaimed(old(Snapshot()), repayment)
                && !Discharged(old(Snapshot()), repayments[repayment].loan)
                && WithinBand(maker, repayments[repayment].amount)
      ensures why == None ==> Files(old(Snapshot()), Snapshot(), maker.id, repayment)
      ensures why == None ==>
                forall checker, day | Entitled(checker, maker.id, repayments[repayment].amount) ::
                  Services.ApproveAdjustment(Snapshot(), checker, |old(adjustments)|, day).Done?
    {
      ghost var before := Snapshot();
      RequestAdmits(before, maker, repayment);
      why := LockChain(repayment);
      if why != None {
        return;
      }
      var r := repayments[repayment];
      var l := loans[r.loan];
      var reopens := l.status == Closed;
      if reopens && ReleasedExist(guarantees, r.loan) {
        return Some(Conflict);
      }
      var parts := AllocationOf(Legs(txns, r.txn));
      if parts.Total() != r.amount {
        return Some(Conflict);
      }
      if !MayRatify(maker, r.amount) {
        return Some(Forbidden);
      }
      if LiveClaim(adjustments, repayment) {
        return Some(Conflict);
      }
      adjustments := adjustments + [Adjustment(repayment, r.loan, r.txn, None, maker.id, None, r.amount, parts, reopens,
                                               l.balance, l.penaltyDue, l.status, PendingApproval, 1)];
      SettledKeeps(before, CRequest(maker, repayment), why, Snapshot());
      RequestIsApprovable(before, Snapshot(), maker, repayment);
      RequestEffect(before, Snapshot(), maker, repayment);
    }

    /** Every check an approval makes before it writes. */
    method CheckApproval(checker: Actor, id: nat) returns (why: Option<Refusal>)
      requires Valid()
      ensures why == ApprovalRefusal(Snapshot(), checker, id)
      ensures why == None <==> id < |adjustments| && Approvable(Snapshot(), checker, id)
    {
      if id < |adjustments| {
        ApprovalAdmits(Snapshot(), checker, id, 0);
      }
      if id >= |adjustments| {
        return Some(NotFound);
      }
      var a := adjustments[id];
      if a.status != PendingApproval {
        return Some(Conflict);
      }
      why := CheckerRefusal(checker, a.maker);
      if why != None {
        return;
      }
      why := LockChain(a.repayment);
      if why != None {
        return;
      }
      var r := repayments[a.repayment];
      var l := loans[r.loan];
      if l.balance != a.balanceAtRequest || l.penaltyDue != a.penaltyAtRequest || l.status != a.statusAtRequest {
        return Some(Conflict);
      }
      if AllocationOf(Legs(txns, r.txn)) != a.parts {
        return Some(Conflict);
      }
      if a.reopens && ReleasedExist(guarantees, r.loan) {
        return Some(Conflict);
      }
      if !MayRatify(checker, r.amount) {
        return Some(Forbidden);
      }
      why := ReversalRefusal(txns, r.txn);
    }

    /** Reset the paid amounts of one loan and replay its surviving repayments over them. */
    method RebuildSchedule(loan: nat, survivors: seq<Payment>)
      requires loan < |loans|
      modifies this`loans
      ensures loans == old(loans)[loan := old(loans[loan]).(paid := ReplayPaid(old(loans[loan]).rows, survivors))]
    {
      var paid := RebuildPaid(loans[loan].rows, survivors);
      loans := loans[loan := loans[loan].(paid := paid)];
    }

    /** Rebuild the schedule from what survives and add the adjusted parts back. */
    method RestoreLoan(loan: nat, a: Adjustment, survivors: seq<Payment>)
      requires loan < |loans|
      modifies this`loans
      ensures loans == old(loans)[loan := RestoredLoan(old(loans[loan]), a, survivors)]
    {
      var l := loans[loan];
      RebuildSchedule(loan, survivors);
      loans := loans[loan := loans[loan].(balance := l.balance + a.parts.principal,
                                          penaltyDue := l.penaltyDue + a.parts.penalties,
                                          status := if a.reopens then Active else l.status)];
    }

    /** Reverse the posting, record the negative row, decide the claim, restore the loan. */
    method WriteCorrection(checker: Actor, id: nat, day: int)
      requires ApprovalRefusal(Snapshot(), checker, id) == None
      modifies this
      ensures Snapshot() == ApprovalWrites(old(Snapshot()), checker, id, day)
    {
      var a := adjustments[id];
      var r := repayments[a.repayment];
      var reversal := |txns|;
      txns := txns + [Reversal(txns[r.txn], r.txn, day)];
      repayments := repayments + [Repayment(r.loan, reversal, -r.amount)];
      adjustments := adjustments[id := a.(status := Posted, checker := Some(checker.id), reversal := Some(reversal),
                                          version := a.version + 1)];
      RestoreLoan(r.loan, a, Survivors(txns, repayments, adjustments, r.loan, |repayments|));
    }

    /** Write the correction, and roll it all back should the balance not reconstruct from
        the ledger. */
    method WriteApproval(checker: Actor, id: nat, day: int) returns (why: Option<Refusal>)
      requires ApprovalRefusal(Snapshot(), checker, id) == None
      modifies this
      ensures Settles(Services.ApproveAdjustment(old(Snapshot()), checker, id, day), old(Snapshot()), why, Snapshot())
    {
      var before, loan := (txns, repayments, adjustments, loans), repayments[adjustments[id].repayment].loan;
      WriteCorrection(checker, id, day);
      if loans[loan].principal - Net(txns, repayments, loan, |repayments|) != loans[loan].balance {
        txns, repayments, adjustments, loans := before.0, before.1, before.2, before.3;
        return Some(SelfCheckFailed);
      }
      return None;
    }

    /** Phase two. The self-check inside it never fires. */
    method ApproveAdjustment(checker: Actor, id: nat, day: int) returns (why: Option<Refusal>)
      requires Valid()
      modifies this
      ensures Valid() && why != Some(SelfCheckFailed)
      ensures Settles(Services.ApproveAdjustment(old(Snapshot()), checker, id, day), old(Snapshot()), why, Snapshot())
      ensures why == None <==> id < |old(adjustments)| && Approvable(old(Snapshot()), checker, id)
      ensures why == None ==> Corrects(old(Snapshot()), Snapshot(), checker.id, id, day)
    {
      ghost var before := Snapshot();
      SelfCheckNeverFails(before, checker, id, day);
      why := CheckApproval(checker, id);
      if why == None {
        why := WriteApproval(checker, id, day);
        ApprovalEffect(before, Snapshot(), checker, id, day);
      }
      SettledKeeps(before, CApprove(checker, id, day), why, Snapshot());
    }

    /** A rejected claim leaves its repayment free to be claimed again. */
    method RejectAdjustment(checker: Actor, id: nat, version: nat, reasonGiven: bool) returns (why: Option<Refusal>)
      requires Valid()
      modifies this`adjustments
      ensures Valid()
      ensures Settles(Services.RejectAdjustment(old(Snapshot()), checker, id, version, reasonGiven),
                      old(Snapshot()), why, Snapshot())
      ensures why == None <==>
                && reasonGiven && id < |old(adjustments)|
                && var a := old(adjustments)[id];
                   && a.status == PendingApproval && a.version == version
                   && checker.id != a.maker && checker.known && !checker.assurance
      ensures why == None ==>
                && Declines(old(Snapshot()), Snapshot(), checker.id, id)
                && Unclaimed(Snapshot(), adjustments[id].repayment)
    {
      ghost var before := Snapshot();
      RejectionAdmits(before, checker, id, version, reasonGiven);
      if !reasonGiven {
        return Some(Invalid);
      }
      if id >= |adjustments| {
        return Some(NotFound);
      }
      var a := adjustments[id];
      if a.status != PendingApproval {
        return Some(Conflict);
      }
      why := CheckerRefusal(checker, a.maker);
      if why != None {
        return;
      }
      if a.version != version {
        return Some(Conflict);
      }
      adjustments := adjustments[id := a.(status := Rejected, checker := Some(checker.id), version := a.version + 1)];
      SettledKeeps(before, CReject(checker, id, version, reasonGiven), why, Snapshot());
      RejectionFrees(before, Snapshot(), checker, id, version, reasonGiven);
    }

    /** Snapshot a non-performing active loan for the committee. */
    method RequestWriteOff(actor: nat, loan: nat) returns (why: Option<Refusal>)
      requires Valid()
      modifies this`writeOffs
      ensures Valid()
      ensures Settles(Services.RequestWriteOff(old(Snapshot()), actor, loan), old(Snapshot()), why, Snapshot())
      ensures why == None <==>
                && loan < |loans|
                && var l := loans[loan];
                   && l.status == Active && l.grade != Normal && l.grade != Watch && l.balance + l.penaltyDue > 0
                   && NoneOpen(old(Snapshot()), loan)
      ensures why == None ==>
                && Opens(old(Snapshot()), Snapshot(), actor, loan)
                && Owed(Snapshot(), loan) == writeOffs[|writeOffs| - 1].total
    {
      ghost var before := Snapshot();
      WriteOffRequestAdmits(before, actor, loan);
      if loan >= |loans| {
        return Some(NotFound);
      }
      var l: Loan := loans[loan];
      if l.status != Active || !NonPerforming(l.grade) {
        return Some(Conflict);
      }
      var total := l.balance + l.penaltyDue;
      if total <= 0 || LiveWriteOff(writeOffs, loan) {
        return Some(Conflict);
      }
      writeOffs := writeOffs
        + [WriteOff(loan, l.member, l.balance, l.penaltyDue, total, actor, map[], Requested, None, 1)];
      why := None;
      SettledKeeps(before, CRequestWriteOff(actor, loan), why, Snapshot());
      ActiveFigures(before, loan);
    }

    /** Record one vote, then let the tally decide. */
    method CastVote(voter: nat, id: nat, vote: bool, quorum: nat) returns (why: Option<Refusal>)
      requires Valid()
      modifies this`writeOffs
      ensures Valid()
      ensures Settles(Services.CastVote(old(Snapshot()), voter, id, vote, quorum), old(Snapshot()), why, Snapshot())
      ensures why == None <==>
                && id < |old(writeOffs)| && quorum > 0
                && var w := old(writeOffs)[id]; w.status == Requested && voter != w.requester && voter !in w.votes
      ensures why == None ==>
                && |writeOffs| == |old(writeOffs)|
                && (forall w | 0 <= w < |writeOffs| && w != id :: writeOffs[w] == old(writeOffs)[w])
                && var (was, now) := (old(writeOffs)[id], writeOffs[id]);
                   && now == was.(votes := was.votes[voter := vote], status := now.status, version := now.version)
                   && now.version == (if now.status == Requested then was.version else was.version + 1)
                   && (now.status == Requested || now.status == Approved || now.status == Voided)
                   && (forall side :: Count(now.votes, side) == Count(was.votes, side) + if vote == side then 1 else 0)
                   && (now.status == Approved <==> Count(now.votes, true) >= quorum > Count(now.votes, false))
                   && (now.status == Voided <==> Count(now.votes, false) >= quorum)
    {
      ghost var before := Snapshot();
      VoteAdmits(before, voter, id, vote, quorum);
      if id >= |writeOffs| {
        return Some(NotFound);
      }
      var w := writeOffs[id];
      if w.status != Requested {
        return Some(Conflict);
      }
      if voter == w.requester {
        return Some(Forbidden);
      }
      if voter in w.votes {
        return Some(Conflict);
      }
      if quorum == 0 {
        return Some(Invalid);
      }
      var votes := w.votes[voter := vote];
      var approvals, rejections := Count(votes, true), Count(votes, false);
      w := w.(votes := votes);
      if rejections >= quorum {
        w := w.(status := Voided, version := w.version + 1);
      } else if approvals >= quorum {
        w := w.(status := Approved, version := w.version + 1);
      }
      writeOffs := writeOffs[id := w];
      why := None;
      SettledKeeps(before, CVote(voter, id, vote, quorum), why, Snapshot());
      OneVoteMore(before.writeOffs[id].votes, voter, vote, true);
      OneVoteMore(before.writeOffs[id].votes, voter, vote, false);
    }

    /** A voided write-off leaves its loan free for another. */
    method VoidWriteOff(id: nat, version: nat) returns (why: Option<Refusal>)
      requires Valid()
      modifies this`writeOffs
      ensures Valid()
      ensures Settles(Services.VoidWriteOff(old(Snapshot()), id, version), old(Snapshot()), why, Snapshot())
      ensures why == None <==>
                && id < |old(writeOffs)|
                && var w := old(writeOffs)[id]; (w.status == Requested || w.status == Approved) && w.version == version
      ensures why == None ==>
                && writeOffs == old(writeOffs)[id := old(writeOffs)[id].(status := Voided, version := version + 1)]
                && NoneOpen(Snapshot(), writeOffs[id].loan)
    {
      ghost var before := Snapshot();
      VoidAdmits(before, id, version);
      if id >= |writeOffs| {
        return Some(NotFound);
      }
      var w := writeOffs[id];
      if (w.status != Requested && w.status != Approved) || w.version != version {
        return Some(Conflict);
      }
      writeOffs := writeOffs[id := w.(status := Voided, version := w.version + 1)];
      why := None;
      SettledKeeps(before, CVoid(id, version), why, Snapshot());
      VoidFrees(before, Snapshot(), id, version);
    }

    /** Derecognise the receivable, zero the loan, settle the row. */
    method WritePosting(id: nat, day: int)
      requires id < |writeOffs| && writeOffs[id].loan < |loans|
      modifies this
      ensures Snapshot() == PostingWrites(old(Snapshot()), id, day)
    {
      var w := writeOffs[id];
      var posting := None;
      if w.balance > 0 {
        posting := Some(|txns|);
        txns := txns + [WriteOffTxn(w, day)];
      }
      loans := loans[w.loan := loans[w.loan].(balance := 0, penaltyDue := 0, status := WrittenOff)];
      writeOffs := writeOffs[id := w.(status := Executed, txn := posting, version := w.version + 1)];
    }

    /** Re-verify the snapshot, then post: from then on the loan is worth zero and the claim
        is what the books said was owed. */
    method PostWriteOff(actor: nat, id: nat, day: int) returns (why: Option<Refusal>)
      requires Valid()
      modifies this
      ensures Valid()
      ensures Settles(Services.PostWriteOff(old(Snapshot()), actor, id, day), old(Snapshot()), why, Snapshot())
      ensures why == None <==>
                && id < |old(writeOffs)|
                && var w := old(writeOffs)[id];
                   && w.status == Approved && actor != w.requester && w.loan < |old(loans)|
                   && var l := old(loans)[w.loan];
                      l.status == Active && l.balance == w.balance && l.penaltyDue == w.penaltyDue
      ensures why == None ==> Derecognises(old(Snapshot()), Snapshot(), id, day)
      ensures why == None ==>
                ClaimBooked(old(Snapshot()), Snapshot(), id)
    {
      ghost var before := Snapshot();
      PostingAdmits(before, actor, id, day);
      if id >= |writeOffs| {
        return Some(NotFound);
      }
      var w := writeOffs[id];
      if w.status != Approved {
        return Some(Conflict);
      }
      if actor == w.requester {
        return Some(Forbidden);
      }
      if w.loan >= |loans| {
        return Some(NotFound);
      }
      var l: Loan := loans[w.loan];
      if l.status != Active || l.balance != w.balance || l.penaltyDue != w.penaltyDue {
        return Some(Conflict);
      }
      WritePosting(id, day);
      why := None;
      SettledKeeps(before, CPostWriteOff(actor, id, day), why, Snapshot());
      PostingBooksClaim(before, Snapshot(), actor, id, day);
      PostingEffect(before, Snapshot(), actor, id, day);
    }

    /** Post the cash, record the receipt, and free the sureties when it completes the claim. */
    method WriteReceipt(id: nat, amount: int, day: int)
      requires ReceiptRefusal(Snapshot(), id, amount) == None
      modifies this
      ensures Services.RecordReceipt(old(Snapshot()), id, amount, day) == Done(Snapshot())
    {
      var w := writeOffs[id];
      var recovered := Recovered(receipts, id);
      receipts := receipts + [Receipt(id, |txns|, amount)];
      var legs := [Leg(Cash, Debit, amount), Leg(BadDebtRecoveries, Credit, amount)];
      txns := txns + [Txn(w.member, amount, day, legs, None)];
      if w.total - (recovered + amount) == 0 {
        guarantees := ReleaseFor(guarantees, w.loan);
      }
    }

    /** Cash against the surviving claim, never past it; the receipt that completes it frees
        the sureties. */
    method RecordReceipt(id: nat, amount: int, day: int) returns (why: Option<Refusal>)
      requires Valid()
      modifies this
      ensures Valid()
      ensures Settles(Services.RecordReceipt(old(Snapshot()), id, amount, day), old(Snapshot()), why, Snapshot())
      ensures why == None <==>
                && amount > 0 && id < |old(writeOffs)| && old(writeOffs)[id].status == Executed
                && old(writeOffs)[id].member !in exited && amount <= Outstanding(old(Snapshot()), id)
      ensures why == Some(Invalid) <==> amount <= 0
      ensures why == Some(NotFound) <==> amount > 0 && id >= |old(writeOffs)|
      ensures why == None ==> Recovers(old(Snapshot()), Snapshot(), id, amount, day)
      ensures why == None && amount == Outstanding(old(Snapshot()), id) ==>
                Outstanding(Snapshot(), id) == 0 && NoLiveSurety(Snapshot(), writeOffs[id].loan)
    {
      ghost var before := Snapshot();
      ReceiptAdmits(before, id, amount, day);
      if amount <= 0 {
        return Some(Invalid);
      }
      if id >= |writeOffs| {
        return Some(NotFound);
      }
      var w := writeOffs[id];
      if w.status != Executed || w.member in exited {
        return Some(Conflict);
      }
      if w.loan >= |loans| {
        return Some(NotFound);
      }
      if loans[w.loan].status != WrittenOff {
        return Some(Conflict);
      }
      if amount > w.total - Recovered(receipts, id) {
        return Some(Conflict);
      }
      WriteReceipt(id, amount, day);
      why := None;
      SettledKeeps(before, CReceipt(id, amount, day), why, Snapshot());
      ReceiptEffect(before, Snapshot(), id, amount, day);
    }
  }
}
