/** The correction services, each one transaction: a refusal that changes nothing, or the
    rows it writes. `...Refusal` lists the guards in the order the service checks them;
    `...Writes` is the table state after the writes. */
module Services {
  import opened Options
  import opened Schedules
  import opened Tables
  import Runs

  datatype Refusal = NotFound | Conflict | Forbidden | Invalid | SelfCheckFailed

  datatype Outcome = Done(tables: Tables) | Refused(why: Refusal)

  /** The acting user as the server resolves it: whether the users table vouches for it,
      whether its role is an assurance role, and its ratification ceiling (None: no
      approval matrix is configured). */
  datatype Actor = Actor(id: nat, known: bool, assurance: bool, ceiling: Option<nat>)

  predicate MayRatify(actor: Actor, amount: int) {
    actor.ceiling == None || (actor.known && amount <= actor.ceiling.value)
  }

  // ---------------------------------------------------------------------------
  // Guarantees
  // ---------------------------------------------------------------------------

  function ReleaseFor(guarantees: seq<Guarantee>, loan: nat): (out: seq<Guarantee>)
    ensures |out| == |guarantees|
    ensures forall i | 0 <= i < |out| :: out[i].loan == guarantees[i].loan
    ensures forall i | 0 <= i < |out| :: out[i].status == if out[i].loan == loan then Released else guarantees[i].status
  {
    seq(|guarantees|, i requires 0 <= i < |guarantees| =>
      if guarantees[i].loan == loan then guarantees[i].(status := Released) else guarantees[i])
  }

  predicate ReleasedExist(guarantees: seq<Guarantee>, loan: nat) {
    exists i | 0 <= i < |guarantees| :: guarantees[i].loan == loan && guarantees[i].status == Released
  }

  // ---------------------------------------------------------------------------
  // Servicing
  // ---------------------------------------------------------------------------

  function Pledged(loan: nat, amounts: seq<nat>): (g: seq<Guarantee>)
    ensures |g| == |amounts| && forall i | 0 <= i < |g| :: g[i] == Guarantee(loan, amounts[i], Live)
  {
    seq(|amounts|, i requires 0 <= i < |amounts| => Guarantee(loan, amounts[i], Live))
  }

  /** A new loan; the consented guarantees of its application become its sureties. */
  function Disburse(t: Tables, member: nat, principal: nat, rows: Schedule, sureties: seq<nat>): Outcome {
    if member in t.exited then Refused(Conflict)
    else if principal == 0 then Refused(Invalid)
    else
      var loan := LoanRow(member, principal, principal, 0, Active, Normal, rows, Zeros(|rows|));
      Done(t.(loans := t.loans + [loan],
              guarantees := t.guarantees + Pledged(|t.loans|, sureties)))
  }

  /** Penalties first, then interest already due, then principal. */
  function Allocate(amount: nat, penaltyDue: nat, interestDue: nat): (a: Allocation)
    ensures a.Total() == amount && a.penalties <= penaltyDue && a.interest <= interestDue
    ensures a.interest > 0 ==> a.penalties == penaltyDue
    ensures a.principal > 0 ==> a.penalties == penaltyDue && a.interest == interestDue
  {
    var penalties := Min(amount, penaltyDue);
    var interest := Min(amount - penalties, interestDue);
    Allocation(penalties, interest, amount - penalties - interest)
  }

  function RepaymentRefusal(t: Tables, loan: nat, amount: int, day: int): Option<Refusal> {
    if amount <= 0 then Some(Invalid)
    else if loan >= |t.loans| then Some(NotFound)
    else
      var l := t.loans[loan];
      if l.status != Active then Some(Conflict)
      else if l.penaltyDue < 0 then Some(Conflict)
      else if amount > l.penaltyDue + InterestDue(l.rows, l.paid, day) + l.balance then Some(Conflict)
      else None
  }

  /** The loan row after a repayment split as `a`; a row with nothing left closes and
      returns to the healthiest grade. */
  function RepaidLoan(l: Loan, a: Allocation, day: int): (out: Loan) {
    var balance, penaltyDue := l.balance - a.principal, l.penaltyDue - a.penalties;
    var paid := Pass(l.rows, l.paid, day, a.interest + a.principal);
    var repaid := l.(balance := balance, penaltyDue := penaltyDue, paid := paid);
    if balance == 0 && penaltyDue == 0 then repaid.(status := Closed, grade := Normal) else repaid
  }

  function RepaymentWrites(t: Tables, loan: nat, amount: int, day: int): Tables
    requires RepaymentRefusal(t, loan, amount, day) == None
  {
    var l := t.loans[loan];
    var a := Allocate(amount, l.penaltyDue, InterestDue(l.rows, l.paid, day));
    var repaid := RepaidLoan(l, a, day);
    t.(txns := t.txns + [Txn(l.member, amount, day, RepaymentLegs(a), None)],
       repayments := t.repayments + [Repayment(loan, |t.txns|, amount)],
       loans := t.loans[loan := repaid],
       guarantees := if repaid.status == Closed then ReleaseFor(t.guarantees, loan) else t.guarantees)
  }

  function RecordRepayment(t: Tables, loan: nat, amount: int, day: int): Outcome {
    if RepaymentRefusal(t, loan, amount, day) == None then Done(RepaymentWrites(t, loan, amount, day))
    else Refused(RepaymentRefusal(t, loan, amount, day).value)
  }

  /** One day's penalty claim on one loan: write-once per loan and day. */
  function AccruePenalty(t: Tables, loan: nat, day: int, amount: nat): Outcome {
    if loan >= |t.loans| || t.loans[loan].status != Active || amount == 0 then Refused(Conflict)
    else if exists i | 0 <= i < |t.accruals| :: t.accruals[i].loan == loan && t.accruals[i].day == day
    then Refused(Conflict)
    else
      var l := t.loans[loan];
      Done(t.(accruals := t.accruals + [Accrual(loan, day, amount)],
              loans := t.loans[loan := l.(penaltyDue := l.penaltyDue + amount)]))
  }

  function Classify(t: Tables, loan: nat, grade: LoanClass): Outcome {
    if loan >= |t.loans| || t.loans[loan].status != Active then Refused(Conflict)
    else Done(t.(loans := t.loans[loan := t.loans[loan].(grade := grade)]))
  }

  /** The only way out for one live surety of a disbursed loan: an atomic swap for another of
      at least its amount. */
  function Substitute(t: Tables, g: nat, amount: Option<nat>): Outcome {
    if g >= |t.guarantees| then Refused(NotFound)
    else if t.guarantees[g].status != Live then Refused(Conflict)
    else if amount.Some? && amount.value < t.guarantees[g].amount then Refused(Invalid)
    else
      var cover := if amount.Some? then amount.value else t.guarantees[g].amount;
      var swapped := t.guarantees[g := t.guarantees[g].(status := Released)];
      Done(t.(guarantees := swapped + [Guarantee(t.guarantees[g].loan, cover, Live)]))
  }

  // ---------------------------------------------------------------------------
  // Member exit (only what it does to these tables)
  // ---------------------------------------------------------------------------

  predicate UnresolvedClaim(t: Tables, member: nat) {
    exists w | 0 <= w < |t.writeOffs| ::
      t.writeOffs[w].member == member && t.writeOffs[w].status == Executed
      && Recovered(t.receipts, w) < t.writeOffs[w].total
  }

  function Settled(l: Loan, member: nat): Loan {
    if l.member == member && l.status == Active
    then l.(balance := 0, penaltyDue := 0, status := Closed, grade := Normal) else l
  }

  function ExitMember(t: Tables, member: nat): Outcome {
    if member in t.exited then Refused(Conflict)
    else if UnresolvedClaim(t, member) then Refused(Conflict)
    else
      var loans := seq(|t.loans|, i requires 0 <= i < |t.loans| => Settled(t.loans[i], member));
      var guarantees := seq(|t.guarantees|, i requires 0 <= i < |t.guarantees| =>
        var g := t.guarantees[i];
        if g.loan < |t.loans| && t.loans[g.loan].member == member then g.(status := Released) else g);
      Done(t.(loans := loans, guarantees := guarantees, exited := t.exited + {member}))
  }

  // ---------------------------------------------------------------------------
  // Repayment adjustment
  // ---------------------------------------------------------------------------

  /** The guards of the lock chain shared by request and approval. */
  function ChainRefusal(t: Tables, repayment: nat): Option<Refusal> {
    if repayment >= |t.repayments| then Some(NotFound)
    else
      var r := t.repayments[repayment];
      if r.amount <= 0 then Some(Conflict)
      else if r.txn >= |t.txns| then Some(NotFound)
      else if t.txns[r.txn].member in t.exited then Some(Conflict)
      else if r.loan >= |t.loans| then Some(NotFound)
      else if t.loans[r.loan].member != t.txns[r.txn].member then Some(Conflict)
      else if t.loans[r.loan].status == WrittenOff then Some(Conflict)
      else None
  }

  predicate LiveClaim(adjustments: seq<Adjustment>, repayment: nat) {
    exists k | 0 <= k < |adjustments| ::
      adjustments[k].repayment == repayment && adjustments[k].status != Rejected
  }

  function RequestRefusal(t: Tables, maker: Actor, repayment: nat): Option<Refusal> {
    if ChainRefusal(t, repayment) != None then ChainRefusal(t, repayment)
    else
      var r := t.repayments[repayment];
      if t.loans[r.loan].status == Closed && ReleasedExist(t.guarantees, r.loan) then Some(Conflict)
      else if AllocationOf(Legs(t.txns, r.txn)).Total() != r.amount then Some(Conflict)
      else if !MayRatify(maker, r.amount) then Some(Forbidden)
      else if LiveClaim(t.adjustments, repayment) then Some(Conflict)
      else None
  }

  function NewAdjustment(t: Tables, maker: Actor, repayment: nat): Adjustment
    requires ChainRefusal(t, repayment) == None
  {
    var r := t.repayments[repayment];
    var l := t.loans[r.loan];
    Adjustment(repayment, r.loan, r.txn, None, maker.id, None, r.amount, AllocationOf(Legs(t.txns, r.txn)),
               l.status == Closed, l.balance, l.penaltyDue, l.status, PendingApproval, 1)
  }

  function RequestAdjustment(t: Tables, maker: Actor, repayment: nat): Outcome {
    if RequestRefusal(t, maker, repayment) != None then Refused(RequestRefusal(t, maker, repayment).value)
    else Done(t.(adjustments := t.adjustments + [NewAdjustment(t, maker, repayment)]))
  }

  /** Segregation of duties for the checker. */
  function CheckerRefusal(checker: Actor, maker: nat): Option<Refusal> {
    if checker.id == maker then Some(Conflict)
    else if !checker.known then Some(Forbidden)
    else if checker.assurance then Some(Conflict)
    else None
  }

  predicate Reversed(txns: seq<Txn>, original: nat) {
    exists i | 0 <= i < |txns| :: txns[i].reversalOf == Some(original)
  }

  function ReversalRefusal(txns: seq<Txn>, original: nat): Option<Refusal> {
    if original >= |txns| then Some(NotFound)
    else if txns[original].reversalOf != None then Some(Conflict)
    else if Reversed(txns, original) then Some(Conflict)
    else if txns[original].legs == [] then Some(NotFound)
    else None
  }

  predicate SnapshotHolds(a: Adjustment, l: Loan) {
    l.balance == a.balanceAtRequest && l.penaltyDue == a.penaltyAtRequest && l.status == a.statusAtRequest
  }

  function ApprovalRefusal(t: Tables, checker: Actor, id: nat): Option<Refusal> {
    if id >= |t.adjustments| then Some(NotFound)
    else
      var a := t.adjustments[id];
      if a.status != PendingApproval then Some(Conflict)
      else if CheckerRefusal(checker, a.maker) != None then CheckerRefusal(checker, a.maker)
      else if ChainRefusal(t, a.repayment) != None then ChainRefusal(t, a.repayment)
      else
        var r := t.repayments[a.repayment];
        if !SnapshotHolds(a, t.loans[r.loan]) then Some(Conflict)
        else if AllocationOf(Legs(t.txns, r.txn)) != a.parts then Some(Conflict)
        else if a.reopens && ReleasedExist(t.guarantees, r.loan) then Some(Conflict)
        else if !MayRatify(checker, r.amount) then Some(Forbidden)
        else ReversalRefusal(t.txns, r.txn)
  }

  /** The storno posting: the original's legs mirrored, linked by reversalOf, dated today. */
  function Reversal(original: Txn, id: nat, day: int): Txn {
    Txn(original.member, original.amount, day, Mirror(original.legs), Some(id))
  }

  function PostedAdjustment(a: Adjustment, checker: nat, reversal: nat): Adjustment {
    a.(status := Posted, checker := Some(checker), reversal := Some(reversal), version := a.version + 1)
  }

  /** The loan row restored: figures added back, the schedule replayed from the survivors. */
  function RestoredLoan(l: Loan, a: Adjustment, survivors: seq<Payment>): Loan {
    l.(balance := l.balance + a.parts.principal, penaltyDue := l.penaltyDue + a.parts.penalties,
       status := if a.reopens then Active else l.status, paid := ReplayPaid(l.rows, survivors))
  }

  function ApprovalTxns(t: Tables, id: nat, day: int): seq<Txn>
    requires id < |t.adjustments| && ChainRefusal(t, t.adjustments[id].repayment) == None
  {
    var r := t.repayments[t.adjustments[id].repayment];
    t.txns + [Reversal(t.txns[r.txn], r.txn, day)]
  }

  function ApprovalRepayments(t: Tables, id: nat): seq<Repayment>
    requires id < |t.adjustments| && ChainRefusal(t, t.adjustments[id].repayment) == None
  {
    var r := t.repayments[t.adjustments[id].repayment];
    t.repayments + [Repayment(r.loan, |t.txns|, -r.amount)]
  }

  function ApprovalAdjustments(t: Tables, checker: Actor, id: nat): seq<Adjustment>
    requires id < |t.adjustments|
  {
    t.adjustments[id := PostedAdjustment(t.adjustments[id], checker.id, |t.txns|)]
  }

  function ApprovalWrites(t: Tables, checker: Actor, id: nat, day: int): Tables
    requires ApprovalRefusal(t, checker, id) == None
  {
    var a := t.adjustments[id];
    var loan := t.repayments[a.repayment].loan;
    var txns, repayments := ApprovalTxns(t, id, day), ApprovalRepayments(t, id);
    var adjustments := ApprovalAdjustments(t, checker, id);
    var restored := RestoredLoan(t.loans[loan], a, Survivors(txns, repayments, adjustments, loan, |repayments|));
    t.(txns := txns, repayments := repayments, adjustments := adjustments, loans := t.loans[loan := restored])
  }

  /** Balance reconstructed from the ledger: principal less the net of the receivable legs. */
  function ReconstructedBalance(t: Tables, loan: nat): int
    requires loan < |t.loans|
  {
    t.loans[loan].principal - Net(t.txns, t.repayments, loan, |t.repayments|)
  }

  function ApproveAdjustment(t: Tables, checker: Actor, id: nat, day: int): Outcome {
    if ApprovalRefusal(t, checker, id) != None then Refused(ApprovalRefusal(t, checker, id).value)
    else
      var after := ApprovalWrites(t, checker, id, day);
      var loan := t.repayments[t.adjustments[id].repayment].loan;
      if ReconstructedBalance(after, loan) != after.loans[loan].balance then Refused(SelfCheckFailed)
      else Done(after)
  }

  function RejectAdjustment(t: Tables, checker: Actor, id: nat, version: nat, reasonGiven: bool): Outcome {
    if !reasonGiven then Refused(Invalid)
    else if id >= |t.adjustments| then Refused(NotFound)
    else
      var a := t.adjustments[id];
      if a.status != PendingApproval then Refused(Conflict)
      else if CheckerRefusal(checker, a.maker) != None then Refused(CheckerRefusal(checker, a.maker).value)
      else if a.version != version then Refused(Conflict)
      else Done(t.(adjustments := t.adjustments[id :=
        a.(status := Rejected, checker := Some(checker.id), version := a.version + 1)]))
  }

  // ---------------------------------------------------------------------------
  // Write-off
  // ---------------------------------------------------------------------------

  predicate NonPerforming(grade: LoanClass) { grade == Substandard || grade == Doubtful || grade == Loss }

  predicate LiveWriteOff(writeOffs: seq<WriteOff>, loan: nat) {
    exists w | 0 <= w < |writeOffs| :: writeOffs[w].loan == loan && writeOffs[w].status != Voided
  }

  function RequestWriteOff(t: Tables, actor: nat, loan: nat): Outcome {
    if loan >= |t.loans| then Refused(NotFound)
    else
      var l := t.loans[loan];
      if l.status != Active then Refused(Conflict)
      else if !NonPerforming(l.grade) then Refused(Conflict)
      else if l.balance + l.penaltyDue <= 0 then Refused(Conflict)
      else if LiveWriteOff(t.writeOffs, loan) then Refused(Conflict)
      else Done(t.(writeOffs := t.writeOffs +
        [WriteOff(loan, l.member, l.balance, l.penaltyDue, l.balance + l.penaltyDue, actor, map[], Requested, None,
                  1)]))
  }

  function Voters(votes: map<nat, bool>, side: bool): set<nat> {
    set v | v in votes && votes[v] == side
  }

  function Count(votes: map<nat, bool>, side: bool): nat { |Voters(votes, side)| }

  /** The committee rule: a side decides at the quorum, rejection winning a double. */
  function Tally(votes: map<nat, bool>, quorum: nat): (s: WriteOffStatus) {
    if Count(votes, false) >= quorum then Voided
    else if Count(votes, true) >= quorum then Approved
    else Requested
  }

  function CastVote(t: Tables, voter: nat, id: nat, vote: bool, quorum: nat): Outcome {
    if id >= |t.writeOffs| then Refused(NotFound)
    else
      var w := t.writeOffs[id];
      if w.status != Requested then Refused(Conflict)
      else if voter == w.requester then Refused(Forbidden)
      else if voter in w.votes then Refused(Conflict)
      else if quorum == 0 then Refused(Invalid)
      else
        var votes := w.votes[voter := vote];
        var status := Tally(votes, quorum);
        var version := if status == Requested then w.version else w.version + 1;
        Done(t.(writeOffs := t.writeOffs[id := w.(votes := votes, status := status, version := version)]))
  }

  function VoidWriteOff(t: Tables, id: nat, version: nat): Outcome {
    if id >= |t.writeOffs| then Refused(NotFound)
    else
      var w := t.writeOffs[id];
      if w.status != Requested && w.status != Approved then Refused(Conflict)
      else if w.version != version then Refused(Conflict)
      else Done(t.(writeOffs := t.writeOffs[id := w.(status := Voided, version := w.version + 1)]))
  }

  function PostingRefusal(t: Tables, actor: nat, id: nat): Option<Refusal> {
    if id >= |t.writeOffs| then Some(NotFound)
    else
      var w := t.writeOffs[id];
      if w.status != Approved then Some(Conflict)
      else if actor == w.requester then Some(Forbidden)
      else if w.loan >= |t.loans| then Some(NotFound)
      else if t.loans[w.loan].status != Active then Some(Conflict)
      else if t.loans[w.loan].balance != w.balance || t.loans[w.loan].penaltyDue != w.penaltyDue then Some(Conflict)
      else None
  }

  function WriteOffTxn(w: WriteOff, day: int): Txn
    requires w.balance > 0
  {
    var legs := [Leg(WriteOffExpense, Debit, w.balance), Leg(LoansReceivable, Credit, w.balance)];
    Txn(w.member, w.balance, day, legs, None)
  }

  function PostingWrites(t: Tables, id: nat, day: int): Tables
    requires id < |t.writeOffs| && t.writeOffs[id].loan < |t.loans|
  {
    var w := t.writeOffs[id];
    var posts := w.balance > 0;
    var l := t.loans[w.loan];
    t.(txns := if posts then t.txns + [WriteOffTxn(w, day)] else t.txns,
       loans := t.loans[w.loan := l.(balance := 0, penaltyDue := 0, status := WrittenOff)],
       writeOffs := t.writeOffs[id := w.(status := Executed, txn := if posts then Some(|t.txns|) else None,
                                         version := w.version + 1)])
  }

  function PostWriteOff(t: Tables, actor: nat, id: nat, day: int): Outcome {
    if PostingRefusal(t, actor, id) != None then Refused(PostingRefusal(t, actor, id).value)
    else Done(PostingWrites(t, id, day))
  }

  // ---------------------------------------------------------------------------
  // Recovery receipts
  // ---------------------------------------------------------------------------

  function ReceiptRefusal(t: Tables, id: nat, amount: int): Option<Refusal> {
    if amount <= 0 then Some(Invalid)
    else if id >= |t.writeOffs| then Some(NotFound)
    else
      var w := t.writeOffs[id];
      if w.status != Executed then Some(Conflict)
      else if w.member in t.exited then Some(Conflict)
      else if w.loan >= |t.loans| then Some(NotFound)
      else if t.loans[w.loan].status != WrittenOff then Some(Conflict)
      else if amount > w.total - Recovered(t.receipts, id) then Some(Conflict)
      else None
  }

  function RecordReceipt(t: Tables, id: nat, amount: int, day: int): Outcome {
    if ReceiptRefusal(t, id, amount) != None then Refused(ReceiptRefusal(t, id, amount).value)
    else
      var w := t.writeOffs[id];
      var legs := [Leg(Cash, Debit, amount), Leg(BadDebtRecoveries, Credit, amount)];
      var full := Recovered(t.receipts, id) + amount == w.total;
      Done(t.(txns := t.txns + [Txn(w.member, amount, day, legs, None)],
              receipts := t.receipts + [Receipt(id, |t.txns|, amount)],
              guarantees := if full then ReleaseFor(t.guarantees, w.loan) else t.guarantees))
  }

  /** A receipt row inserted by direct SQL: the column check, the foreign keys and the cap
      trigger are all that stands in its way. */
  function InsertReceipt(t: Tables, id: nat, txn: nat, amount: int): Outcome {
    if amount <= 0 then Refused(Invalid)
    else if id >= |t.writeOffs| || txn >= |t.txns| then Refused(NotFound)
    else if t.writeOffs[id].status != Executed then Refused(Conflict)
    else if Recovered(t.receipts, id) + amount > t.writeOffs[id].total then Refused(Conflict)
    else Done(t.(receipts := t.receipts + [Receipt(id, txn, amount)]))
  }

  // ---------------------------------------------------------------------------
  // Runs
  // ---------------------------------------------------------------------------

  datatype Command =
    | CDisburse(member: nat, principal: nat, rows: Schedule, sureties: seq<nat>)
    | CRepay(loan: nat, amount: int, day: int)
    | CAccrue(loan: nat, day: int, penalty: nat)
    | CClassify(loan: nat, grade: LoanClass)
    | CSubstitute(guarantee: nat, cover: Option<nat>)
    | CExit(member: nat)
    | CRequest(maker: Actor, repayment: nat)
    | CApprove(checker: Actor, id: nat, day: int)
    | CReject(checker: Actor, id: nat, version: nat, reasonGiven: bool)
    | CRequestWriteOff(actor: nat, loan: nat)
    | CVote(actor: nat, id: nat, vote: bool, quorum: nat)
    | CVoid(id: nat, version: nat)
    | CPostWriteOff(actor: nat, id: nat, day: int)
    | CReceipt(id: nat, amount: int, day: int)
    | CInsertReceipt(id: nat, txn: nat, amount: int)

  function Perform(t: Tables, c: Command): Outcome {
    match c
    case CDisburse(member, principal, rows, sureties) => Disburse(t, member, principal, rows, sureties)
    case CRepay(loan, amount, day) => RecordRepayment(t, loan, amount, day)
    case CAccrue(loan, day, penalty) => AccruePenalty(t, loan, day, penalty)
    case CClassify(loan, grade) => Classify(t, loan, grade)
    case CSubstitute(g, cover) => Substitute(t, g, cover)
    case CExit(member) => ExitMember(t, member)
    case CRequest(maker, repayment) => RequestAdjustment(t, maker, repayment)
    case CApprove(checker, id, day) => ApproveAdjustment(t, checker, id, day)
    case CReject(checker, id, version, reasonGiven) => RejectAdjustment(t, checker, id, version, reasonGiven)
    case CRequestWriteOff(actor, loan) => RequestWriteOff(t, actor, loan)
    case CVote(actor, id, vote, quorum) => CastVote(t, actor, id, vote, quorum)
    case CVoid(id, version) => VoidWriteOff(t, id, version)
    case CPostWriteOff(actor, id, day) => PostWriteOff(t, actor, id, day)
    case CReceipt(id, amount, day) => RecordReceipt(t, id, amount, day)
    case CInsertReceipt(id, txn, amount) => InsertReceipt(t, id, txn, amount)
  }

  /** One transaction: committed, or rolled back leaving the tables as they were. */
  function Step(t: Tables, c: Command): Tables {
    match Perform(t, c)
    case Done(after) => after
    case Refused(_) => t
  }

  function Run(t: Tables, commands: seq<Command>): Tables { Runs.Run(Step, t, commands) }

  const EMPTY := Tables([], [], [], [], [], [], [], [], {})

  lemma FirstLoan(member: nat, principal: nat, rows: Schedule)
    requires principal > 0
    ensures Step(EMPTY, CDisburse(member, principal, rows, []))
         == EMPTY.(loans := [LoanRow(member, principal, principal, 0, Active, Normal, rows, Zeros(|rows|))])
  {
  }
}
