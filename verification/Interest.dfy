/** Interest collected against interest charged. A repayment is allocated to all interest due
    so far, but its cash fills the instalments oldest first, principal included; what counts
    as still due afterwards is read back from the instalments. */
module Interest {
  import opened Options
  import opened Schedules
  import opened Tables
  import Runs
  import opened Services

  /** Interest is part of every instalment, and paid amounts lie between zero and the due. */
  ghost predicate Sound(rows: seq<Installment>, paid: seq<int>) {
    && |paid| == |rows|
    && (forall i | 0 <= i < |rows| :: rows[i].interestDue <= rows[i].totalDue && 0 <= paid[i] <= rows[i].totalDue)
  }

  predicate Open(row: Installment, paid: int, day: int) { row.due <= day && paid < row.totalDue }

  function OpenInterest(row: Installment, paid: int): (i: nat) { Max(row.interestDue - paid, 0) }

  /** The interest the next cash meets before it meets any principal. */
  function Lead(rows: seq<Installment>, paid: seq<int>, day: int): (c: nat)
    requires |paid| == |rows|
  {
    if rows == [] then 0
    else if !Open(rows[0], paid[0], day) then Lead(rows[1..], paid[1..], day)
    else if rows[0].interestDue < rows[0].totalDue then OpenInterest(rows[0], paid[0])
    else OpenInterest(rows[0], paid[0]) + Lead(rows[1..], paid[1..], day)
  }

  /** The cash it takes to fill the due instalments up to the last open interest. */
  function Through(rows: seq<Installment>, paid: seq<int>, day: int): (c: nat)
    requires |paid| == |rows|
  {
    if rows == [] then 0
    else if !Open(rows[0], paid[0], day) then Through(rows[1..], paid[1..], day)
    else if InterestDue(rows[1..], paid[1..], day) > 0
    then rows[0].totalDue - paid[0] + Through(rows[1..], paid[1..], day)
    else OpenInterest(rows[0], paid[0])
  }

  /** Cash never clears more interest than its amount, and clears its whole amount exactly
      when it stays within the leading interest. */
  lemma {:induction false} InterestCleared(rows: seq<Installment>, paid: seq<int>, day: int, cash: nat,
                                           before: int, after: int)
    requires Sound(rows, paid)
    requires before == InterestDue(rows, paid, day) && after == InterestDue(rows, Pass(rows, paid, day, cash), day)
    ensures after <= before <= after + cash && Lead(rows, paid, day) <= before
    ensures before == after + cash <==> cash <= Lead(rows, paid, day)
    decreases |rows|
  {
    if rows != [] {
      if !Open(rows[0], paid[0], day) {
        InterestCleared(rows[1..], paid[1..], day, cash, before, after);
      } else {
        var pay := Min(cash, rows[0].totalDue - paid[0]);
        InterestCleared(rows[1..], paid[1..], day, cash - pay, InterestDue(rows[1..], paid[1..], day),
                        InterestDue(rows[1..], Pass(rows[1..], paid[1..], day, cash - pay), day));
      }
    }
  }

  /** Nothing is left due exactly when the cash reaches the last open interest. */
  lemma {:induction false} AllCleared(rows: seq<Installment>, paid: seq<int>, day: int, cash: nat,
                                      before: int, after: int)
    requires Sound(rows, paid)
    requires before == InterestDue(rows, paid, day) && after == InterestDue(rows, Pass(rows, paid, day, cash), day)
    ensures before <= Through(rows, paid, day)
    ensures after == 0 <==> cash >= Through(rows, paid, day)
    decreases |rows|
  {
    if rows != [] {
      if !Open(rows[0], paid[0], day) {
        AllCleared(rows[1..], paid[1..], day, cash, before, after);
      } else {
        var pay := Min(cash, rows[0].totalDue - paid[0]);
        var b := InterestDue(rows[1..], paid[1..], day);
        var a := InterestDue(rows[1..], Pass(rows[1..], paid[1..], day, cash - pay), day);
        InterestCleared(rows[1..], paid[1..], day, cash - pay, b, a);
        AllCleared(rows[1..], paid[1..], day, cash - pay, b, a);
      }
    }
  }

  /** What a repayment collects as interest is taken off the interest due exactly when its
      cash stays within the leading interest or reaches the last open interest. Anything in
      between pays for principal of an older instalment with cash booked as interest, and
      that interest falls due again. */
  lemma CollectedOnce(t: Tables, u: Tables, loan: nat, amount: int, day: int)
    requires RecordRepayment(t, loan, amount, day) == Done(u) && Sound(t.loans[loan].rows, t.loans[loan].paid)
    ensures loan < |t.loans| && loan < |u.loans| && u.txns != []
    ensures var (l, m) := (t.loans[loan], u.loans[loan]);
      var parts := AllocationOf(Legs(u.txns, |t.txns|));
      var cash := parts.interest + parts.principal;
      InterestDue(l.rows, m.paid, day) == InterestDue(l.rows, l.paid, day) - parts.interest
      <==> cash <= Lead(l.rows, l.paid, day) || cash >= Through(l.rows, l.paid, day)
  {
    var l := t.loans[loan];
    var a := Allocate(amount, l.penaltyDue, InterestDue(l.rows, l.paid, day));
    AllocationRoundTrip(a);
    assert Legs(u.txns, |t.txns|) == RepaymentLegs(a);
    var cash := a.interest + a.principal;
    var before, after := InterestDue(l.rows, l.paid, day), InterestDue(l.rows, Pass(l.rows, l.paid, day, cash), day);
    InterestCleared(l.rows, l.paid, day, cash, before, after);
    AllCleared(l.rows, l.paid, day, cash, before, after);
  }

  // ---------------------------------------------------------------------------
  // Paid amounts stay sound
  // ---------------------------------------------------------------------------

  ghost predicate SoundRows(rows: seq<Installment>) {
    forall i | 0 <= i < |rows| :: rows[i].interestDue <= rows[i].totalDue
  }

  lemma SoundBehind(rows: seq<Installment>, first: int, rest: seq<int>)
    requires rows != [] && rows[0].interestDue <= rows[0].totalDue && 0 <= first <= rows[0].totalDue
    requires Sound(rows[1..], rest)
    ensures Sound(rows, [first] + rest)
  {
    forall i | 0 < i < |rows|
      ensures rows[i].interestDue <= rows[i].totalDue && 0 <= ([first] + rest)[i] <= rows[i].totalDue
    {
      assert rows[i] == rows[1..][i - 1] && ([first] + rest)[i] == rest[i - 1];
    }
  }

  lemma {:induction false} PassKeepsSound(rows: seq<Installment>, paid: seq<int>, day: int, cash: int)
    requires Sound(rows, paid)
    ensures Sound(rows, Pass(rows, paid, day, cash))
    decreases |rows|
  {
    if rows != [] && cash > 0 {
      var take := Take(rows[0], paid[0], day, cash);
      PassSplits(rows, paid, day, cash);
      PassKeepsSound(rows[1..], paid[1..], day, cash - take);
      SoundBehind(rows, paid[0] + take, Pass(rows[1..], paid[1..], day, cash - take));
    }
  }

  lemma {:induction false} ReplayIsSound(rows: seq<Installment>, payments: seq<Payment>)
    requires SoundRows(rows)
    ensures Sound(rows, ReplayPaid(rows, payments))
  {
    if payments != [] {
      var n := |payments| - 1;
      ReplayIsSound(rows, payments[..n]);
      PassKeepsSound(rows, ReplayPaid(rows, payments[..n]), payments[n].day, payments[n].cash);
    }
  }

  ghost predicate AllSound(loans: seq<Loan>) {
    forall i | 0 <= i < |loans| :: Sound(loans[i].rows, loans[i].paid)
  }

  ghost predicate SoundContract(c: Command) { c.CDisburse? ==> SoundRows(c.rows) }

  lemma RepayKeepsSound(t: Tables, u: Tables, loan: nat, amount: int, day: int)
    requires AllSound(t.loans) && RecordRepayment(t, loan, amount, day) == Done(u)
    ensures AllSound(u.loans)
  {
    var l := t.loans[loan];
    var a := Allocate(amount, l.penaltyDue, InterestDue(l.rows, l.paid, day));
    PassKeepsSound(l.rows, l.paid, day, a.interest + a.principal);
  }

  lemma ApproveKeepsSound(t: Tables, u: Tables, checker: Actor, id: nat, day: int)
    requires AllSound(t.loans) && ApproveAdjustment(t, checker, id, day) == Done(u)
    ensures AllSound(u.loans)
  {
    var loan := t.repayments[t.adjustments[id].repayment].loan;
    assert Sound(t.loans[loan].rows, t.loans[loan].paid);
    ReplayIsSound(t.loans[loan].rows, Survivors(u.txns, u.repayments, u.adjustments, loan, |u.repayments|));
  }

  lemma StepKeepsSound(t: Tables, c: Command)
    requires AllSound(t.loans) && SoundContract(c)
    ensures AllSound(Step(t, c).loans)
  {
    var u := Step(t, c);
    if Perform(t, c).Done? {
      match c
      case CRepay(loan, amount, day) => RepayKeepsSound(t, u, loan, amount, day);
      case CApprove(checker, id, day) => ApproveKeepsSound(t, u, checker, id, day);
      case _ =>
    }
  }

  /** On every run over sound contracts each instalment is paid between nothing and its due. */
  lemma {:induction false} RunKeepsSound(t: Tables, commands: seq<Command>)
    requires AllSound(t.loans) && forall i | 0 <= i < |commands| :: SoundContract(commands[i])
    ensures AllSound(Run(t, commands).loans)
    decreases |commands|
  {
    if commands != [] {
      StepKeepsSound(t, commands[0]);
      RunKeepsSound(Step(t, commands[0]), commands[1..]);
    }
  }

  // ---------------------------------------------------------------------------
  // Interest collected twice
  // ---------------------------------------------------------------------------

  const OVERDUE := [Installment(10, 10, 110), Installment(20, 10, 110)]

  /** One loan over those two instalments, then `k` repayments of 10 on day 30. */
  function Instalments(k: nat): seq<Command> {
    if k == 0 then [CDisburse(7, 200, OVERDUE, [])] else Instalments(k - 1) + [CRepay(0, 10, 30)]
  }

  /** Credits to interest income over the whole ledger. */
  function InterestBooked(txns: seq<Txn>): (s: nat) {
    if txns == [] then 0
    else InterestBooked(txns[..|txns| - 1]) + AllocationOf(txns[|txns| - 1].legs).interest
  }

  lemma BookedGrows(txns: seq<Txn>, x: Txn)
    ensures InterestBooked(txns + [x]) == InterestBooked(txns) + AllocationOf(x.legs).interest
  {
    assert (txns + [x])[..|txns|] == txns;
  }

  function InterestCharged(rows: seq<Installment>): (s: nat) {
    if rows == [] then 0 else rows[0].interestDue + InterestCharged(rows[1..])
  }

  function Borrower(k: nat): Loan { LoanRow(7, 200, 200, 0, Active, Normal, OVERDUE, [10 * k, 0]) }

  /** While the first instalment is not full, a repayment of 10 is all booked as interest. */
  lemma OneInstalment(t: Tables, k: nat, pay: Command)
    requires k <= 10 && Booked(t, k) && pay == CRepay(0, 10, 30)
    ensures Booked(Step(t, pay), k + 1)
  {
    var a := Allocation(0, 10, 0);
    BorrowerRepaid(k);
    AllocationRoundTrip(a);
    TakesInterest(t, k, a, Step(t, pay));
    BookedGrows(t.txns, Txn(7, 10, 30, RepaymentLegs(a), None));
  }

  lemma BorrowerRepaid(k: nat)
    requires k <= 10
    ensures InterestDue(OVERDUE, [10 * k, 0], 30) >= 10
    ensures RepaidLoan(Borrower(k), Allocation(0, 10, 0), 30) == Borrower(k + 1)
  {
    OverdueDue(10 * k);
    OverdueAfter(10 * k);
  }

  lemma TakesInterest(t: Tables, k: nat, a: Allocation, u: Tables)
    requires k <= 10 && t.loans == [Borrower(k)] && u == Step(t, CRepay(0, 10, 30)) && a == Allocation(0, 10, 0)
    requires InterestDue(OVERDUE, [10 * k, 0], 30) >= 10 && RepaidLoan(Borrower(k), a, 30) == Borrower(k + 1)
    ensures u.loans == [Borrower(k + 1)] && u.txns == t.txns + [Txn(7, 10, 30, RepaymentLegs(a), None)]
  {
    var due := InterestDue(OVERDUE, [10 * k, 0], 30);
    assert Allocate(10, 0, due) == a;
    assert RepaymentRefusal(t, 0, 10, 30) == None;
  }

  lemma NoInstalment(lend: Command)
    requires lend == CDisburse(7, 200, OVERDUE, [])
    ensures Run(EMPTY, [lend]) == EMPTY.(loans := [Borrower(0)])
  {
    FirstLoan(7, 200, OVERDUE);
    assert Zeros(2) == [0, 0];
    Runs.Unrolled(Step, EMPTY, lend, []);
    assert [lend] + [] == [lend];
  }

  lemma OneMoreInstalment(before: seq<Command>, t: Tables, pay: Command)
    requires t == Run(EMPTY, before)
    ensures Run(EMPTY, before + [pay]) == Step(t, pay)
  {
    Runs.Concat(Step, EMPTY, before, [pay]);
    Runs.Unrolled(Step, t, pay, []);
    assert [pay] + [] == [pay];
  }

  ghost predicate Booked(t: Tables, k: nat) { t.loans == [Borrower(k)] && InterestBooked(t.txns) == 10 * k }

  lemma BookedOn(k: nat, earlier: seq<Command>, u: Tables)
    requires k <= 10 && Booked(Run(EMPTY, earlier), k) && u == Run(EMPTY, earlier + [CRepay(0, 10, 30)])
    ensures Booked(u, k + 1)
  {
    var t := Run(EMPTY, earlier);
    OneMoreInstalment(earlier, t, CRepay(0, 10, 30));
    OneInstalment(t, k, CRepay(0, 10, 30));
  }

  lemma {:induction false} InstalmentsBooked(k: nat, t: Tables)
    requires k <= 11 && t == Run(EMPTY, Instalments(k))
    ensures Booked(t, k)
    decreases k
  {
    if k == 0 {
      NoInstalment(CDisburse(7, 200, OVERDUE, []));
    } else {
      var earlier := Instalments(k - 1);
      InstalmentsBooked(k - 1, Run(EMPTY, earlier));
      BookedOn(k - 1, earlier, t);
    }
  }

  /** Two overdue instalments charge 20 of interest. Up to eleven repayments of 10 are booked
      as interest one after the other, 110 of it in the end, and 10 is due still. */
  lemma InterestCollectedTwice(k: nat)
    requires k <= 11
    ensures var t := Run(EMPTY, Instalments(k));
      && InterestCharged(OVERDUE) == 20 && InterestBooked(t.txns) == 10 * k
      && |t.loans| == 1 && InterestDue(t.loans[0].rows, t.loans[0].paid, 30) == Max(10 - 10 * k, 0) + 10
  {
    InstalmentsBooked(k, Run(EMPTY, Instalments(k)));
    OverdueDue(10 * k);
    assert InterestCharged(OVERDUE[1..]) == 10 && OVERDUE[1..][1..] == [];
  }

  lemma OverdueDue(p: int)
    requires 0 <= p <= 110
    ensures InterestDue(OVERDUE, [p, 0], 30) == Max(10 - p, 0) + 10
  {
    assert OVERDUE[1..] == [Installment(20, 10, 110)] && [p, 0][1..] == [0];
    assert [Installment(20, 10, 110)][1..] == [] && [0][1..] == [];
  }

  lemma OverdueAfter(p: int)
    requires 0 <= p <= 100
    ensures Pass(OVERDUE, [p, 0], 30, 10) == [p + 10, 0]
  {
    assert OVERDUE[1..] == [Installment(20, 10, 110)] && [p, 0][1..] == [0];
    assert [Installment(20, 10, 110)][1..] == [] && [0][1..] == [];
  }
}
