/** What a claim keeps once it is written: the write-once triggers, the one-way status
    machines, and the fate of a written-off loan over whole runs. */
module Claims {
  import opened Options
  import opened Schedules
  import opened Tables
  import opened Services
  import opened Invariant
  import opened Preservation
  import Runs

  // ---------------------------------------------------------------------------
  // The write-once triggers
  // ---------------------------------------------------------------------------

  predicate FilledOnce<T(==)>(before: Option<T>, after: Option<T>) { before.Some? ==> after == before }

  /** What the trigger on repayment_adjustments lets an UPDATE do, direct SQL included, with
      the table's own check that a checker is not the maker. */
  predicate AdjustmentUpdateAllowed(a: Adjustment, b: Adjustment) {
    && b == a.(reversal := b.reversal, checker := b.checker, status := b.status, version := b.version)
    && FilledOnce(a.reversal, b.reversal) && FilledOnce(a.checker, b.checker)
    && (b.status != a.status ==> a.status == PendingApproval)
    && b.checker != Some(b.maker)
  }

  /** What the trigger on loan_write_offs lets an UPDATE do; it does not police the status. */
  predicate WriteOffUpdateAllowed(v: WriteOff, w: WriteOff) {
    && w == v.(votes := w.votes, status := w.status, txn := w.txn, version := w.version)
    && FilledOnce(v.txn, w.txn)
  }

  /** Consecutive versions of one adjustment row, each written by an allowed update. */
  ghost predicate UpdateHistory(versions: seq<Adjustment>) {
    forall i | 0 < i < |versions| :: AdjustmentUpdateAllowed(versions[i - 1], versions[i])
  }

  /** However often a row is updated, by the services or by direct SQL, its snapshot never
      moves, a filled decision field keeps its value, a decided status is final, and the
      recorded checker is never the maker. */
  lemma {:induction false} SnapshotIsPinned(versions: seq<Adjustment>, i: nat, j: nat)
    requires UpdateHistory(versions) && i < j < |versions|
    ensures AdjustmentUpdateAllowed(versions[i], versions[j])
    ensures var (a, b) := (versions[i], versions[j]);
      && b.repayment == a.repayment && b.loan == a.loan && b.original == a.original && b.maker == a.maker
      && b.amount == a.amount && b.parts == a.parts && b.reopens == a.reopens
      && b.balanceAtRequest == a.balanceAtRequest && b.penaltyAtRequest == a.penaltyAtRequest
      && b.statusAtRequest == a.statusAtRequest
      && (a.reversal.Some? ==> b.reversal == a.reversal) && (a.checker.Some? ==> b.checker == a.checker)
      && (a.status != PendingApproval ==> b.status == a.status) && b.checker != Some(b.maker)
    decreases j
  {
    assert AdjustmentUpdateAllowed(versions[j - 1], versions[j]);
    if i < j - 1 {
      SnapshotIsPinned(versions, i, j - 1);
    }
  }

  // ---------------------------------------------------------------------------
  // One command, seen from the rows that were already there
  // ---------------------------------------------------------------------------

  ghost predicate AdjustmentKept(a: Adjustment, b: Adjustment) {
    && (b == a || AdjustmentUpdateAllowed(a, b))
    && (a.status != PendingApproval ==> b == a)
  }

  /** The service's status machine, transitively closed. */
  predicate Reaches(from: WriteOffStatus, to: WriteOffStatus) {
    to == from || from == Requested || (from == Approved && to != Requested)
  }

  ghost predicate WriteOffKept(v: WriteOff, w: WriteOff) {
    && WriteOffUpdateAllowed(v, w)
    && Reaches(v.status, w.status)
    && (v.status == Voided || v.status == Executed ==> w == v)
    && (forall voter | voter in v.votes :: voter in w.votes && w.votes[voter] == v.votes[voter])
  }

  /** A loan keeps its borrower, principal and schedule; once written off it never changes. */
  ghost predicate LoanKept(l: LoanRow, m: LoanRow) {
    && m.member == l.member && m.principal == l.principal && m.rows == l.rows
    && (l.status == WrittenOff ==> m == l)
  }

  ghost predicate LoansKept(l: seq<Loan>, m: seq<Loan>) {
    |l| <= |m| && forall i | 0 <= i < |l| :: LoanKept(l[i], m[i])
  }

  ghost predicate AdjustmentsKept(a: seq<Adjustment>, b: seq<Adjustment>) {
    |a| <= |b| && forall i | 0 <= i < |a| :: AdjustmentKept(a[i], b[i])
  }

  ghost predicate WriteOffsKept(v: seq<WriteOff>, w: seq<WriteOff>) {
    |v| <= |w| && forall i | 0 <= i < |v| :: WriteOffKept(v[i], w[i])
  }

  /** Later tables extend earlier ones: postings, repayments, receipts and accruals are
      append-only, the other rows move only as their triggers and status machines allow. */
  ghost predicate Extends(t: Tables, u: Tables) {
    && t.txns <= u.txns && t.repayments <= u.repayments && t.receipts <= u.receipts && t.accruals <= u.accruals
    && LoansKept(t.loans, u.loans)
    && AdjustmentsKept(t.adjustments, u.adjustments)
    && WriteOffsKept(t.writeOffs, u.writeOffs)
    && t.exited <= u.exited
  }

  lemma ServicingExtends(t: Tables, c: Command)
    requires Inv(t) && Perform(t, c).Done?
    requires c.CDisburse? || c.CAccrue? || c.CClassify? || c.CSubstitute?
    ensures Extends(t, Perform(t, c).tables)
  {
  }

  lemma RequestExtends(t: Tables, u: Tables, maker: Actor, repayment: nat)
    requires RequestAdjustment(t, maker, repayment) == Done(u)
    ensures Extends(t, u)
  {
  }

  lemma ApproveExtends(t: Tables, u: Tables, checker: Actor, id: nat, day: int)
    requires AdjustmentsOk(t.txns, t.repayments, t.adjustments) && ApproveAdjustment(t, checker, id, day) == Done(u)
    ensures Extends(t, u)
  {
  }

  lemma RejectExtends(t: Tables, u: Tables, checker: Actor, id: nat, version: nat, reasonGiven: bool)
    requires AdjustmentsOk(t.txns, t.repayments, t.adjustments)
    requires RejectAdjustment(t, checker, id, version, reasonGiven) == Done(u)
    ensures Extends(t, u)
  {
    assert AdjustmentRow(t.txns, t.repayments, t.adjustments[id]);
  }

  lemma PostExtends(t: Tables, u: Tables, actor: nat, id: nat, day: int)
    requires WriteOffPostingsOk(t.txns, t.writeOffs) && PostWriteOff(t, actor, id, day) == Done(u)
    ensures Extends(t, u)
  {
    assert WriteOffPosting(t.txns, t.writeOffs[id]);
  }

  lemma VoteExtends(t: Tables, u: Tables, voter: nat, id: nat, vote: bool, quorum: nat)
    requires CastVote(t, voter, id, vote, quorum) == Done(u)
    ensures Extends(t, u)
  {
  }

  lemma VoidExtends(t: Tables, u: Tables, id: nat, version: nat)
    requires WriteOffPostingsOk(t.txns, t.writeOffs) && VoidWriteOff(t, id, version) == Done(u)
    ensures Extends(t, u)
  {
  }

  lemma WriteOffRequestExtends(t: Tables, u: Tables, actor: nat, loan: nat)
    requires RequestWriteOff(t, actor, loan) == Done(u)
    ensures Extends(t, u)
  {
  }

  lemma ReceiptExtends(t: Tables, u: Tables, id: nat, amount: int, day: int)
    requires RecordReceipt(t, id, amount, day) == Done(u)
    ensures Extends(t, u)
  {
  }

  lemma InsertExtends(t: Tables, u: Tables, id: nat, txn: nat, amount: int)
    requires InsertReceipt(t, id, txn, amount) == Done(u)
    ensures Extends(t, u)
  {
  }

  lemma ExitExtends(t: Tables, u: Tables, member: nat)
    requires ExitMember(t, member) == Done(u)
    ensures Extends(t, u)
  {
  }

  lemma RepayExtends(t: Tables, u: Tables, loan: nat, amount: int, day: int)
    requires RecordRepayment(t, loan, amount, day) == Done(u)
    ensures Extends(t, u)
  {
  }

  lemma AdjustmentExtends(t: Tables, c: Command, u: Tables)
    requires AdjustmentsOk(t.txns, t.repayments, t.adjustments) && Perform(t, c) == Done(u)
    requires (c.CRequest? || c.CApprove? || c.CReject?)
    ensures Extends(t, u)
  {
    match c
    case CRequest(maker, repayment) => RequestExtends(t, u, maker, repayment);
    case CApprove(checker, id, day) => ApproveExtends(t, u, checker, id, day);
    case CReject(checker, id, version, reasonGiven) => RejectExtends(t, u, checker, id, version, reasonGiven);
  }

  lemma WriteOffExtends(t: Tables, c: Command, u: Tables)
    requires WriteOffPostingsOk(t.txns, t.writeOffs) && Perform(t, c) == Done(u)
    requires c.CRequestWriteOff? || c.CVote? || c.CVoid? || c.CPostWriteOff?
    ensures Extends(t, u)
  {
    match c
    case CRequestWriteOff(actor, loan) => WriteOffRequestExtends(t, u, actor, loan);
    case CVote(voter, id, vote, quorum) => VoteExtends(t, u, voter, id, vote, quorum);
    case CVoid(id, version) => VoidExtends(t, u, id, version);
    case CPostWriteOff(actor, id, day) => PostExtends(t, u, actor, id, day);
  }

  /** No command ever trips a write-once trigger, and none rewrites history. */
  lemma StepExtends(t: Tables, c: Command)
    requires Inv(t)
    ensures Extends(t, Step(t, c))
  {
    var u := Step(t, c);
    if Perform(t, c).Done? {
      match c
      case CRepay(loan, amount, day) => RepayExtends(t, u, loan, amount, day);
      case CExit(member) => ExitExtends(t, u, member);
      case CReceipt(id, amount, day) => ReceiptExtends(t, u, id, amount, day);
      case CInsertReceipt(id, txn, amount) => InsertExtends(t, u, id, txn, amount);
      case CDisburse(_, _, _, _) => ServicingExtends(t, c);
      case CAccrue(_, _, _) => ServicingExtends(t, c);
      case CClassify(_, _) => ServicingExtends(t, c);
      case CSubstitute(_, _) => ServicingExtends(t, c);
      case CRequest(_, _) => AdjustmentExtends(t, c, u);
      case CApprove(_, _, _) => AdjustmentExtends(t, c, u);
      case CReject(_, _, _, _) => AdjustmentExtends(t, c, u);
      case _ => WriteOffExtends(t, c, u);
    }
  }

  lemma ExtendsTransitive(t: Tables, u: Tables, v: Tables)
    requires Extends(t, u) && Extends(u, v)
    ensures Extends(t, v)
  {
    forall i | 0 <= i < |t.adjustments| ensures AdjustmentKept(t.adjustments[i], v.adjustments[i]) {
      assert AdjustmentKept(t.adjustments[i], u.adjustments[i]) && AdjustmentKept(u.adjustments[i], v.adjustments[i]);
    }
    forall i | 0 <= i < |t.writeOffs| ensures WriteOffKept(t.writeOffs[i], v.writeOffs[i]) {
      assert WriteOffKept(t.writeOffs[i], u.writeOffs[i]) && WriteOffKept(u.writeOffs[i], v.writeOffs[i]);
    }
    forall i | 0 <= i < |t.loans| ensures LoanKept(t.loans[i], v.loans[i]) {
      assert LoanKept(t.loans[i], u.loans[i]) && LoanKept(u.loans[i], v.loans[i]);
    }
  }

  lemma {:induction false} RunExtends(t: Tables, commands: seq<Command>)
    requires Inv(t)
    ensures Extends(t, Run(t, commands))
    decreases |commands|
  {
    if commands != [] {
      StepKeeps(t, commands[0]);
      StepExtends(t, commands[0]);
      RunExtends(Step(t, commands[0]), commands[1..]);
      ExtendsTransitive(t, Step(t, commands[0]), Run(t, commands));
    }
  }

  // ---------------------------------------------------------------------------
  // Adjustments over whole runs
  // ---------------------------------------------------------------------------

  /** A decided adjustment never moves again, a decided row has a checker other than its
      maker, and a reversal is recorded exactly on posted rows. */
  lemma DecisionsAreFinal(t: Tables, commands: seq<Command>, k: nat)
    requires Inv(t) && k < |t.adjustments|
    ensures k < |Run(t, commands).adjustments|
    ensures var (a, b) := (t.adjustments[k], Run(t, commands).adjustments[k]);
      && (a.status != PendingApproval ==> b == a)
      && b.(reversal := a.reversal, checker := a.checker, status := a.status, version := a.version) == a
      && (b.status != PendingApproval <==> b.checker.Some?) && b.checker != Some(b.maker)
      && (b.status == Posted <==> b.reversal.Some?)
  {
    RunKeeps(t, commands);
    RunExtends(t, commands);
    var u := Run(t, commands);
    assert AdjustmentKept(t.adjustments[k], u.adjustments[k]);
    assert AdjustmentRow(u.txns, u.repayments, u.adjustments[k]);
  }

  ghost predicate Reverses(txns: seq<Txn>, i: nat, original: nat) {
    i < |txns| && txns[i].reversalOf == Some(original)
  }

  /** A repayment is reversed in the ledger exactly when it has a posted adjustment, never
      twice, and at most one adjustment of it is not rejected. */
  lemma ReversedOnce(t: Tables, i: nat)
    requires Inv(t) && i < |t.repayments| && t.repayments[i].amount > 0
    ensures Reversed(t.txns, t.repayments[i].txn) <==> PostedFor(t.adjustments, i)
    ensures forall x, y :: Reverses(t.txns, x, t.repayments[i].txn) && Reverses(t.txns, y, t.repayments[i].txn) ==>
              x == y
    ensures forall j, k | 0 <= j < k < |t.adjustments|
                          && t.adjustments[j].repayment == i == t.adjustments[k].repayment ::
              t.adjustments[j].status == Rejected || t.adjustments[k].status == Rejected
  {
    var original := t.repayments[i].txn;
    if PostedFor(t.adjustments, i) {
      var k :| 0 <= k < |t.adjustments| && t.adjustments[k].repayment == i && t.adjustments[k].status == Posted;
      assert AdjustmentRow(t.txns, t.repayments, t.adjustments[k]);
    }
    if Reversed(t.txns, original) {
      var x :| 0 <= x < |t.txns| && t.txns[x].reversalOf == Some(original);
      assert PostedOriginal(t.adjustments, original);
      var k :| 0 <= k < |t.adjustments| && t.adjustments[k].original == original && t.adjustments[k].status == Posted;
      assert AdjustmentRow(t.txns, t.repayments, t.adjustments[k]);
    }
  }

  // ---------------------------------------------------------------------------
  // Written-off loans over whole runs
  // ---------------------------------------------------------------------------

  /** A written-off loan stays written off at zero, whatever is done afterwards. */
  lemma WrittenOffForever(t: Tables, commands: seq<Command>, loan: nat)
    requires Inv(t) && loan < |t.loans| && t.loans[loan].status == WrittenOff
    ensures loan < |Run(t, commands).loans| && Run(t, commands).loans[loan] == t.loans[loan]
    ensures t.loans[loan].balance == 0 && t.loans[loan].penaltyDue == 0
  {
    assert LoanOk(t, loan);
    RunExtends(t, commands);
    assert LoanKept(t.loans[loan], Run(t, commands).loans[loan]);
  }

  /** Principal less every receivable leg of the loan, its write-off posting included. */
  function NetReceivable(t: Tables, w: nat): int
    requires w < |t.writeOffs| && t.writeOffs[w].loan < |t.loans|
  {
    var loan := t.writeOffs[w].loan;
    var posting := t.writeOffs[w].txn;
    t.loans[loan].principal - Net(t.txns, t.repayments, loan, |t.repayments|)
    - (if posting.Some? then SignedReceivable(Legs(t.txns, posting.value)) else 0)
  }

  /** An executed write-off is the only live one of its loan; the loan is written off and
      its receivable nets to zero in the ledger. */
  lemma ExecutedClearsReceivable(t: Tables, w: nat)
    requires Inv(t) && w < |t.writeOffs| && t.writeOffs[w].status == Executed
    ensures t.writeOffs[w].loan < |t.loans| && t.loans[t.writeOffs[w].loan].status == WrittenOff
    ensures NetReceivable(t, w) == 0
    ensures forall v | 0 <= v < |t.writeOffs| && v != w && t.writeOffs[v].loan == t.writeOffs[w].loan ::
              t.writeOffs[v].status == Voided
  {
    assert WriteOffRow(t.loans, t.writeOffs[w]);
    assert WriteOffPosting(t.txns, t.writeOffs[w]);
    assert LoanOk(t, t.writeOffs[w].loan);
    ExecutedFound(t.writeOffs, w);
  }

  /** Conversely every written-off loan has such a claim. */
  lemma WrittenOffHasClaim(t: Tables, loan: nat) returns (w: nat)
    requires Inv(t) && loan < |t.loans| && t.loans[loan].status == WrittenOff
    ensures w < |t.writeOffs| && t.writeOffs[w].loan == loan && t.writeOffs[w].status == Executed
  {
    assert LoanOk(t, loan);
    w := ExecutedExists(t.writeOffs, loan);
  }

  /** The claim a posting creates is the balance and the penalties the books show at that
      moment: principal less receivable legs, plus accrued less collected penalties. */
  lemma ClaimIsWhatWasOwed(t: Tables, actor: nat, id: nat, day: int)
    requires Inv(t) && PostWriteOff(t, actor, id, day).Done?
    ensures var (w, loan, n) := (t.writeOffs[id], t.writeOffs[id].loan, |t.repayments|);
      && w.balance == t.loans[loan].principal - Net(t.txns, t.repayments, loan, n)
      && w.penaltyDue == Accrued(t.accruals, loan) - Taken(t.txns, t.repayments, t.adjustments, loan, n)
      && PostWriteOff(t, actor, id, day).tables.writeOffs[id].total == w.balance + w.penaltyDue
  {
    assert WriteOffRow(t.loans, t.writeOffs[id]);
    assert LoanOk(t, t.writeOffs[id].loan);
  }

  // ---------------------------------------------------------------------------
  // The committee
  // ---------------------------------------------------------------------------

  /** Command `k` of the run is an accepted vote on write-off `id`, recorded in `w`, whose
      votes reach the quorum in force when it was cast, with none against. */
  ghost predicate DecidedAt(commands: seq<Command>, k: nat, id: nat, w: WriteOff)
    requires k < |commands|
  {
    var c := commands[k];
    && c.CVote? && c.id == id && Perform(Run(EMPTY, commands[..k]), c).Done?
    && c.actor in w.votes && w.votes[c.actor] == c.vote
    && Count(w.votes, true) >= c.quorum > 0 && Count(w.votes, false) < c.quorum
  }

  /** An approved or executed write-off was decided by one of the first `n` commands. */
  ghost predicate Backed(w: WriteOff, id: nat, commands: seq<Command>, n: nat)
    requires n <= |commands|
  {
    w.status == Approved || w.status == Executed ==> exists k | 0 <= k < n :: DecidedAt(commands, k, id, w)
  }

  ghost predicate AllBacked(writeOffs: seq<WriteOff>, commands: seq<Command>, n: nat)
    requires n <= |commands|
  {
    forall w | 0 <= w < |writeOffs| :: Backed(writeOffs[w], w, commands, n)
  }

  /** Without a vote of its own a write-off gets no further than it was decided. */
  lemma VotesStay(t: Tables, c: Command, u: Tables, w: nat)
    requires Perform(t, c) == Done(u) && w < |u.writeOffs| && !(c.CVote? && c.id == w)
    ensures u.writeOffs[w].status == Approved || u.writeOffs[w].status == Executed ==>
              && w < |t.writeOffs| && u.writeOffs[w].votes == t.writeOffs[w].votes
              && (t.writeOffs[w].status == Approved || t.writeOffs[w].status == Executed)
  {
  }

  lemma StepKeepsBacked(t: Tables, u: Tables, commands: seq<Command>, n: nat)
    requires n < |commands| && t == Run(EMPTY, commands[..n]) && Perform(t, commands[n]) == Done(u)
    requires AllBacked(t.writeOffs, commands, n)
    ensures AllBacked(u.writeOffs, commands, n + 1)
  {
    var c := commands[n];
    forall w | 0 <= w < |u.writeOffs| ensures Backed(u.writeOffs[w], w, commands, n + 1) {
      if c.CVote? && c.id == w {
        VoteDecides(t, u, commands, n);
      } else {
        VotesStay(t, c, u, w);
        if u.writeOffs[w].status == Approved || u.writeOffs[w].status == Executed {
          assert Backed(t.writeOffs[w], w, commands, n);
          var k :| 0 <= k < n && DecidedAt(commands, k, w, t.writeOffs[w]);
          assert DecidedAt(commands, k, w, u.writeOffs[w]);
        }
      }
    }
  }

  lemma VoteDecides(t: Tables, u: Tables, commands: seq<Command>, n: nat)
    requires n < |commands| && t == Run(EMPTY, commands[..n]) && Perform(t, commands[n]) == Done(u)
    requires commands[n].CVote?
    ensures commands[n].id < |u.writeOffs| && Backed(u.writeOffs[commands[n].id], commands[n].id, commands, n + 1)
  {
    var id := commands[n].id;
    if u.writeOffs[id].status == Approved {
      assert DecidedAt(commands, n, id, u.writeOffs[id]);
    }
  }

  lemma {:induction false} RunKeepsBacked(commands: seq<Command>, n: nat)
    requires n <= |commands|
    ensures AllBacked(Run(EMPTY, commands[..n]).writeOffs, commands, n)
  {
    if n > 0 {
      var t, c := Run(EMPTY, commands[..n - 1]), commands[n - 1];
      RunKeepsBacked(commands, n - 1);
      assert commands[..n] == commands[..n - 1] + [c] && [c] == [c] + [];
      Runs.Concat(Step, EMPTY, commands[..n - 1], [c]);
      Runs.Unrolled(Step, t, c, []);
      match Perform(t, c)
      case Done(u) => StepKeepsBacked(t, u, commands, n - 1);
      case Refused(_) => BackedStays(t.writeOffs, commands, n - 1);
    }
  }

  lemma BackedStays(writeOffs: seq<WriteOff>, commands: seq<Command>, n: nat)
    requires n < |commands| && AllBacked(writeOffs, commands, n)
    ensures AllBacked(writeOffs, commands, n + 1)
  {
    forall w | 0 <= w < |writeOffs| ensures Backed(writeOffs[w], w, commands, n + 1) {
      assert Backed(writeOffs[w], w, commands, n);
    }
  }

  /** On every run nothing is written off unless some accepted vote on it met the quorum in
      force at that vote, approvals against rejections as recorded, whatever quorums were in
      force at other votes; and no vote is the requester's. */
  lemma ExecutedHasQuorum(commands: seq<Command>, w: nat)
    ensures var writeOffs := Run(EMPTY, commands).writeOffs;
      w < |writeOffs| && writeOffs[w].status == Executed ==>
        && (exists k | 0 <= k < |commands| :: DecidedAt(commands, k, w, writeOffs[w]))
        && writeOffs[w].requester !in writeOffs[w].votes
  {
    EveryRun(commands);
    RunKeepsBacked(commands, |commands|);
    assert commands[..|commands|] == commands;
    var t := Run(EMPTY, commands);
    if w < |t.writeOffs| {
      assert Backed(t.writeOffs[w], w, commands, |commands|) && WriteOffRow(t.loans, t.writeOffs[w]);
    }
  }

  // ---------------------------------------------------------------------------
  // Exited members
  // ---------------------------------------------------------------------------

  ghost predicate Owes(t: Tables, w: nat)
    requires w < |t.writeOffs|
  {
    t.writeOffs[w].status == Executed && Recovered(t.receipts, w) < t.writeOffs[w].total
  }

  ghost predicate ExitedOweNothing(t: Tables) {
    forall w | 0 <= w < |t.writeOffs| && t.writeOffs[w].member in t.exited :: !Owes(t, w)
  }

  lemma PostKeepsExited(t: Tables, u: Tables, actor: nat, id: nat, day: int)
    requires Inv(t) && ExitedOweNothing(t) && PostWriteOff(t, actor, id, day) == Done(u)
    ensures ExitedOweNothing(u)
  {
    assert LoanOk(t, t.writeOffs[id].loan) && WriteOffRow(t.loans, t.writeOffs[id]);
    forall w | 0 <= w < |u.writeOffs| && u.writeOffs[w].member in u.exited ensures !Owes(u, w) {
      if w != id {
        assert !Owes(t, w);
      }
    }
  }

  lemma ReceiptKeepsExited(t: Tables, c: Command, u: Tables)
    requires ExitedOweNothing(t) && Perform(t, c) == Done(u) && (c.CReceipt? || c.CInsertReceipt?)
    ensures ExitedOweNothing(u)
  {
    forall w | 0 <= w < |u.writeOffs| && u.writeOffs[w].member in u.exited ensures !Owes(u, w) {
      assert !Owes(t, w);
      ReceiptAdds(t.receipts, u.receipts[|t.receipts|], w);
    }
  }

  lemma ExitKeepsExited(t: Tables, u: Tables, member: nat)
    requires ExitedOweNothing(t) && ExitMember(t, member) == Done(u)
    ensures ExitedOweNothing(u)
  {
    forall w | 0 <= w < |u.writeOffs| && u.writeOffs[w].member in u.exited ensures !Owes(u, w) {
      if t.writeOffs[w].member in t.exited {
        assert !Owes(t, w);
      }
    }
  }

  lemma OthersKeepExited(t: Tables, c: Command, u: Tables)
    requires ExitedOweNothing(t) && Perform(t, c) == Done(u)
    requires !c.CPostWriteOff? && !c.CReceipt? && !c.CInsertReceipt? && !c.CExit?
    ensures ExitedOweNothing(u)
  {
    forall w | 0 <= w < |u.writeOffs| && u.writeOffs[w].member in u.exited ensures !Owes(u, w) {
      if w < |t.writeOffs| {
        assert !Owes(t, w);
      }
    }
  }

  lemma PerformKeepsExited(t: Tables, c: Command, u: Tables)
    requires Inv(t) && ExitedOweNothing(t) && Perform(t, c) == Done(u)
    ensures ExitedOweNothing(u)
  {
    if c.CPostWriteOff? {
      PostKeepsExited(t, u, c.actor, c.id, c.day);
    } else if c.CReceipt? || c.CInsertReceipt? {
      ReceiptKeepsExited(t, c, u);
    } else if c.CExit? {
      ExitKeepsExited(t, u, c.member);
    } else {
      OthersKeepExited(t, c, u);
    }
  }

  lemma StepKeepsExited(t: Tables, c: Command, u: Tables)
    requires Inv(t) && ExitedOweNothing(t) && u == Step(t, c)
    ensures ExitedOweNothing(u)
  {
    match Perform(t, c)
    case Done(after) => PerformKeepsExited(t, c, after);
    case Refused(_) =>
  }

  /** No member ever leaves owing: on every run an exited member has no outstanding
      written-off claim, and none can arise later. */
  lemma {:induction false} ExitsAreSettled(t: Tables, commands: seq<Command>)
    requires Inv(t) && ExitedOweNothing(t)
    ensures ExitedOweNothing(Run(t, commands))
    decreases |commands|
  {
    if commands != [] {
      StepKeeps(t, commands[0]);
      StepKeepsExited(t, commands[0], Step(t, commands[0]));
      ExitsAreSettled(Step(t, commands[0]), commands[1..]);
    }
  }

  // ---------------------------------------------------------------------------
  // Recoveries over whole runs
  // ---------------------------------------------------------------------------

  lemma {:induction false} RecoveredGrows(receipts: seq<Receipt>, more: seq<Receipt>, w: nat)
    ensures Recovered(receipts, w) <= Recovered(receipts + more, w)
  {
    if more == [] {
      assert receipts + more == receipts;
    } else {
      var n := |more| - 1;
      RecoveredGrows(receipts, more[..n], w);
      assert (receipts + more)[..|receipts + more| - 1] == receipts + more[..n];
    }
  }

  lemma ClaimGrowsWithin(t: Tables, u: Tables, id: nat)
    requires RowsOk(u) && Extends(t, u) && id < |t.writeOffs|
    ensures id < |u.writeOffs| && u.writeOffs[id].total == t.writeOffs[id].total
    ensures Recovered(t.receipts, id) <= Recovered(u.receipts, id) <= u.writeOffs[id].total
  {
    assert WriteOffKept(t.writeOffs[id], u.writeOffs[id]);
    assert u.receipts == t.receipts + u.receipts[|t.receipts|..];
    RecoveredGrows(t.receipts, u.receipts[|t.receipts|..], id);
  }

  lemma SettledRefuses(u: Tables, id: nat, txn: nat, amount: int, day: int)
    requires id < |u.writeOffs| && Recovered(u.receipts, id) >= u.writeOffs[id].total
    ensures RecordReceipt(u, id, amount, day).Refused? && InsertReceipt(u, id, txn, amount).Refused?
  {
  }

  /** Receipts never exceed the claim on any run, direct inserts included, and once they
      reach it every later receipt is refused, however it is made. */
  lemma ClaimIsSettledOnce(t: Tables, commands: seq<Command>, id: nat, txn: nat, amount: int, day: int)
    requires Inv(t) && id < |t.writeOffs|
    ensures var u := Run(t, commands);
      && id < |u.writeOffs| && u.writeOffs[id].total == t.writeOffs[id].total
      && Recovered(t.receipts, id) <= Recovered(u.receipts, id) <= u.writeOffs[id].total
      && (Recovered(t.receipts, id) == t.writeOffs[id].total ==>
            RecordReceipt(u, id, amount, day).Refused? && InsertReceipt(u, id, txn, amount).Refused?)
  {
    var u := Run(t, commands);
    RunKeeps(t, commands);
    RunExtends(t, commands);
    ClaimGrowsWithin(t, u, id);
    if Recovered(t.receipts, id) == t.writeOffs[id].total {
      SettledRefuses(u, id, txn, amount, day);
    }
  }

  // ---------------------------------------------------------------------------
  // Sureties on service-only runs
  // ---------------------------------------------------------------------------

  /** The claim of the loan that is still open to receipts. */
  ghost predicate Outstanding(writeOffs: seq<WriteOff>, receipts: seq<Receipt>, loan: nat) {
    exists w | 0 <= w < |writeOffs| ::
      writeOffs[w].loan == loan && writeOffs[w].status == Executed && Recovered(receipts, w) < writeOffs[w].total
  }

  /** A surety is live only behind an active loan or an outstanding written-off claim. */
  ghost predicate SuretyBound(t: Tables, g: Guarantee) {
    g.status == Live ==>
      g.loan < |t.loans|
      && match t.loans[g.loan].status {
           case Active => true
           case Closed => false
           case WrittenOff => Outstanding(t.writeOffs, t.receipts, g.loan)
         }
  }

  ghost predicate SuretiesBound(t: Tables) {
    forall g | 0 <= g < |t.guarantees| :: SuretyBound(t, t.guarantees[g])
  }

  lemma OutstandingStays(v: seq<WriteOff>, w: seq<WriteOff>, receipts: seq<Receipt>, loan: nat)
    requires |v| <= |w| && Outstanding(v, receipts, loan)
    requires forall i | 0 <= i < |v| && v[i].status == Executed :: w[i] == v[i]
    ensures Outstanding(w, receipts, loan)
  {
    var i :| 0 <= i < |v| && v[i].loan == loan && v[i].status == Executed && Recovered(receipts, i) < v[i].total;
    assert w[i] == v[i];
  }

  lemma ServicingKeepsSureties(t: Tables, c: Command)
    requires SuretiesBound(t) && Perform(t, c).Done?
    requires c.CDisburse? || c.CAccrue? || c.CClassify? || c.CExit?
    ensures SuretiesBound(Perform(t, c).tables)
  {
    var u := Perform(t, c).tables;
    forall g | 0 <= g < |u.guarantees| ensures SuretyBound(u, u.guarantees[g]) {
      if g < |t.guarantees| {
        assert SuretyBound(t, t.guarantees[g]);
      }
    }
  }

  lemma SubstituteKeepsSureties(t: Tables, g: nat, cover: Option<nat>)
    requires SuretiesBound(t) && Substitute(t, g, cover).Done?
    ensures SuretiesBound(Substitute(t, g, cover).tables)
  {
    var u := Substitute(t, g, cover).tables;
    assert SuretyBound(t, t.guarantees[g]);
    forall h | 0 <= h < |u.guarantees| ensures SuretyBound(u, u.guarantees[h]) {
      if h < |t.guarantees| {
        assert SuretyBound(t, t.guarantees[h]);
      }
    }
  }

  lemma RepayKeepsSureties(t: Tables, loan: nat, amount: int, day: int)
    requires SuretiesBound(t) && RepaymentRefusal(t, loan, amount, day) == None
    ensures SuretiesBound(RepaymentWrites(t, loan, amount, day))
  {
    var u := RepaymentWrites(t, loan, amount, day);
    forall g | 0 <= g < |u.guarantees| ensures SuretyBound(u, u.guarantees[g]) {
      assert SuretyBound(t, t.guarantees[g]);
    }
  }

  lemma DecisionKeepsSureties(t: Tables, c: Command)
    requires SuretiesBound(t) && Perform(t, c).Done?
    requires c.CRequest? || c.CApprove? || c.CReject?
    ensures SuretiesBound(Perform(t, c).tables)
  {
  }

  lemma WorkflowKeepsSureties(t: Tables, c: Command)
    requires SuretiesBound(t) && Perform(t, c).Done?
    requires c.CRequestWriteOff? || c.CVote? || c.CVoid?
    ensures SuretiesBound(Perform(t, c).tables)
  {
    var u := Perform(t, c).tables;
    forall loan | 0 <= loan < |t.loans| && Outstanding(t.writeOffs, t.receipts, loan)
      ensures Outstanding(u.writeOffs, u.receipts, loan)
    {
      OutstandingStays(t.writeOffs, u.writeOffs, t.receipts, loan);
    }
  }

  lemma PostKeepsSureties(t: Tables, actor: nat, id: nat, day: int)
    requires Inv(t) && SuretiesBound(t) && PostingRefusal(t, actor, id) == None
    ensures SuretiesBound(PostingWrites(t, id, day))
  {
    var u := PostingWrites(t, id, day);
    NoReceipts(t.receipts, id);
    assert WriteOffRow(t.loans, t.writeOffs[id]);
    assert Outstanding(u.writeOffs, u.receipts, t.writeOffs[id].loan) by {
      assert u.writeOffs[id].status == Executed;
    }
    forall g | 0 <= g < |u.guarantees| ensures SuretyBound(u, u.guarantees[g]) {
      assert SuretyBound(t, t.guarantees[g]);
      if Outstanding(t.writeOffs, t.receipts, t.guarantees[g].loan) {
        OutstandingStays(t.writeOffs, u.writeOffs, t.receipts, t.guarantees[g].loan);
      }
    }
  }

  /** A receipt on another write-off, or one short of the claim, leaves it outstanding. */
  lemma ReceiptLeavesOutstanding(w: seq<WriteOff>, receipts: seq<Receipt>, x: Receipt, loan: nat)
    requires Outstanding(w, receipts, loan) && x.writeOff < |w|
    requires w[x.writeOff].loan == loan ==> Recovered(receipts, x.writeOff) + x.amount < w[x.writeOff].total
    ensures Outstanding(w, receipts + [x], loan)
  {
    var i :| 0 <= i < |w| && w[i].loan == loan && w[i].status == Executed && Recovered(receipts, i) < w[i].total;
    ReceiptAdds(receipts, x, i);
  }

  lemma ReceiptKeepsSureties(t: Tables, id: nat, amount: int, day: int)
    requires SuretiesBound(t) && ReceiptRefusal(t, id, amount) == None
    ensures SuretiesBound(RecordReceipt(t, id, amount, day).tables)
  {
    var u := RecordReceipt(t, id, amount, day).tables;
    var x := Receipt(id, |t.txns|, amount);
    forall g | 0 <= g < |u.guarantees| ensures SuretyBound(u, u.guarantees[g]) {
      var loan := t.guarantees[g].loan;
      assert SuretyBound(t, t.guarantees[g]);
      if u.guarantees[g].status == Live && Outstanding(t.writeOffs, t.receipts, loan) {
        ReceiptLeavesOutstanding(t.writeOffs, t.receipts, x, loan);
      }
    }
  }

  lemma StepKeepsSureties(t: Tables, c: Command)
    requires Inv(t) && SuretiesBound(t) && !c.CInsertReceipt?
    ensures SuretiesBound(Step(t, c))
  {
    if Perform(t, c).Done? {
      match c
      case CRepay(loan, amount, day) => RepayKeepsSureties(t, loan, amount, day);
      case CSubstitute(g, cover) => SubstituteKeepsSureties(t, g, cover);
      case CPostWriteOff(actor, id, day) => PostKeepsSureties(t, actor, id, day);
      case CReceipt(id, amount, day) => ReceiptKeepsSureties(t, id, amount, day);
      case CRequest(_, _) => DecisionKeepsSureties(t, c);
      case CApprove(_, _, _) => DecisionKeepsSureties(t, c);
      case CReject(_, _, _, _) => DecisionKeepsSureties(t, c);
      case CRequestWriteOff(_, _) => WorkflowKeepsSureties(t, c);
      case CVote(_, _, _, _) => WorkflowKeepsSureties(t, c);
      case CVoid(_, _) => WorkflowKeepsSureties(t, c);
      case _ => ServicingKeepsSureties(t, c);
    }
  }

  ghost predicate ServiceOnly(commands: seq<Command>) {
    forall i | 0 <= i < |commands| :: !commands[i].CInsertReceipt?
  }

  /** On every run of the services a surety is bound only while there is a debt to back:
      closing a loan and recovering a claim in full discharge them all. */
  lemma {:induction false} SuretiesFollowTheDebt(t: Tables, commands: seq<Command>)
    requires Inv(t) && SuretiesBound(t) && ServiceOnly(commands)
    ensures SuretiesBound(Run(t, commands))
    decreases |commands|
  {
    if commands != [] {
      StepKeeps(t, commands[0]);
      StepKeepsSureties(t, commands[0]);
      SuretiesFollowTheDebt(Step(t, commands[0]), commands[1..]);
    }
  }

  /** From empty tables: whoever is still bound backs an active loan, or a written-off one
      whose claim the receipts have not met. */
  lemma BoundMeansOwed(commands: seq<Command>, g: nat)
    requires ServiceOnly(commands) && g < |Run(EMPTY, commands).guarantees|
    requires Run(EMPTY, commands).guarantees[g].status == Live
    ensures var t := Run(EMPTY, commands);
      var loan := t.guarantees[g].loan;
      && loan < |t.loans| && t.loans[loan].status != Closed
      && (t.loans[loan].status == WrittenOff ==>
            exists w | 0 <= w < |t.writeOffs| ::
              t.writeOffs[w].loan == loan && t.writeOffs[w].status == Executed
              && Recovered(t.receipts, w) < t.writeOffs[w].total)
  {
    EveryRun([]);
    SuretiesFollowTheDebt(EMPTY, commands);
    assert SuretyBound(Run(EMPTY, commands), Run(EMPTY, commands).guarantees[g]);
  }

  /** A receipt discharges the sureties of its loan exactly when it completes the claim,
      and those of no other loan ever. */
  lemma ReceiptDischarges(t: Tables, u: Tables, id: nat, amount: int, day: int, g: nat)
    requires RecordReceipt(t, id, amount, day) == Done(u) && g < |t.guarantees| && t.guarantees[g].status == Live
    ensures |u.guarantees| == |t.guarantees| && id < |t.writeOffs|
    ensures Recovered(u.receipts, id) == Recovered(t.receipts, id) + amount
    ensures u.guarantees[g].status == Released <==>
              (t.guarantees[g].loan == t.writeOffs[id].loan && Recovered(u.receipts, id) == t.writeOffs[id].total)
  {
    ReceiptAdds(t.receipts, Receipt(id, |t.txns|, amount), id);
  }

  function LiveSureties(guarantees: seq<Guarantee>, loan: nat): (n: nat) {
    if guarantees == [] then 0
    else
      var last := guarantees[|guarantees| - 1];
      LiveSureties(guarantees[..|guarantees| - 1], loan) + if last.loan == loan && last.status == Live then 1 else 0
  }

  /** What the live sureties of a loan cover together. */
  function Cover(guarantees: seq<Guarantee>, loan: nat): (c: nat) {
    if guarantees == [] then 0
    else
      var last := guarantees[|guarantees| - 1];
      Cover(guarantees[..|guarantees| - 1], loan) + if last.loan == loan && last.status == Live then last.amount else 0
  }

  lemma {:induction false} ReleasingOne(guarantees: seq<Guarantee>, g: nat, loan: nat)
    requires g < |guarantees| && guarantees[g].status == Live
    ensures var (after, own) := (guarantees[g := guarantees[g].(status := Released)], guarantees[g].loan == loan);
      && LiveSureties(after, loan) == LiveSureties(guarantees, loan) - (if own then 1 else 0)
      && Cover(after, loan) == Cover(guarantees, loan) - (if own then guarantees[g].amount else 0)
  {
    var n := |guarantees| - 1;
    var after := guarantees[g := guarantees[g].(status := Released)];
    if g == n {
      assert after[..n] == guarantees[..n];
    } else {
      assert after[..n] == guarantees[..n][g := guarantees[g].(status := Released)];
      ReleasingOne(guarantees[..n], g, loan);
    }
  }

  /** A substitution discharges the old surety, leaves every loan as many as before, and never
      lowers what they cover: its own loan gains exactly the excess over the old amount. */
  lemma SubstitutionKeepsCover(t: Tables, u: Tables, g: nat, cover: Option<nat>, loan: nat)
    requires Substitute(t, g, cover) == Done(u)
    ensures g < |t.guarantees| && u.guarantees[g].status == Released
    ensures LiveSureties(u.guarantees, loan) == LiveSureties(t.guarantees, loan)
    ensures Cover(u.guarantees, loan)
         == Cover(t.guarantees, loan)
            + if cover.Some? && t.guarantees[g].loan == loan then cover.value - t.guarantees[g].amount else 0
    ensures Cover(u.guarantees, loan) >= Cover(t.guarantees, loan)
  {
    var swapped := t.guarantees[g := t.guarantees[g].(status := Released)];
    ReleasingOne(t.guarantees, g, loan);
    assert u.guarantees[..|swapped|] == swapped;
  }
}
