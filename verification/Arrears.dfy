/** The nightly arrears job: prudential classification and write-once daily penalties. */
module Arrears {
  import opened Options
  import opened Schedules
  import opened Tables
  import opened Batches

  /** Penalty parameters; the rate is hundredths of a percent per month. */
  datatype Config = Config(rate: nat, grace: nat, onArrears: bool)

  /** What the job reads and writes of one loan; `claims` is penalty_accruals by day. */
  datatype LoanFile = LoanFile(active: bool, dpd: nat, grade: LoanClass, provision: nat, balance: nat, penaltyDue: nat,
                               rows: seq<Installment>, paid: seq<nat>, claims: map<int, nat>)

  type File = f: LoanFile | |f.paid| == |f.rows|
    witness LoanFile(false, 0, Normal, 1, 0, 0, [], [], map[])

  datatype Tally = Tally(updated: nat, accrued: nat, total: nat)

  // ---------------------------------------------------------------------------
  // Domain rules
  // ---------------------------------------------------------------------------

  /** Class and provision percentage by days past due. */
  function Classify(dpd: nat): (c: (LoanClass, nat)) {
    if dpd <= 30 then (Normal, 1)
    else if dpd <= 90 then (Watch, 5)
    else if dpd <= 180 then (Substandard, 25)
    else if dpd <= 360 then (Doubtful, 50)
    else (Loss, 100)
  }

  /** One day of penalty in cents: basis x rate% / 30, rounded half up. */
  function DailyPenalty(basis: nat, rate: nat): nat { (2 * (basis * rate) + 300_000) / 600_000 }

  /** The charge is the nearest cent, ties up; a basis too small for half a cent a day is
      never charged, however long it is overdue. */
  lemma PenaltyIsNearestCent(basis: nat, rate: nat)
    ensures var cents := DailyPenalty(basis, rate);
      600_000 * cents <= 2 * (basis * rate) + 300_000 < 600_000 * cents + 600_000
    ensures DailyPenalty(basis, rate) == 0 <==> basis * rate < 150_000
  {
  }

  lemma Scaled(a: int, b: int, k: nat)
    requires a <= b
    ensures a * k <= b * k
  {
  }

  /** The division rounds to the context's digits before the cents are rounded. Whatever
      multiple of 1/grid of a cent it rounds to, up or down at a tie, the charge is the same,
      as long as the grid is even and finer than 1/300,000; 28 digits leave at least a grid
      of 10 to the 11th for 18-digit amounts. */
  lemma ContextRoundingIsHarmless(basis: nat, rate: nat, grid: nat, quotient: nat)
    requires grid > 300_000 && grid % 2 == 0
    requires -300_000 <= 2 * (quotient * 300_000 - basis * rate * grid) <= 300_000
    ensures (2 * quotient + grid) / (2 * grid) == DailyPenalty(basis, rate)
  {
    var exact, cents := basis * rate, DailyPenalty(basis, rate);
    Scaled(300_000 * cents - 150_000, exact, grid);
    Scaled(exact, 300_000 * cents + 149_999, grid);
    NearestOnGrid(exact * grid, cents * grid, grid, quotient);
    HalfUp(2 * quotient + grid, 2 * grid, cents);
  }

  lemma NearestOnGrid(scaled: int, whole: int, grid: nat, quotient: int)
    requires grid > 300_000 && grid % 2 == 0 && -300_000 <= 2 * (quotient * 300_000 - scaled) <= 300_000
    requires 300_000 * whole - 150_000 * grid <= scaled <= 300_000 * whole + 149_999 * grid
    ensures 2 * whole <= 2 * quotient + grid < 2 * whole + 2 * grid
  {
  }

  lemma HalfUp(x: nat, d: nat, q: nat)
    requires d > 0 && d * q <= x < d * q + d
    ensures x / d == q
  {
    if x / d < q {
      Scaled(x / d + 1, q, d);
    } else if x / d > q {
      Scaled(q + 1, x / d, d);
    }
  }

  /** Worse arrears never mean a better class, a lower provision, or leaving NPL. */
  lemma ClassifyIsMonotone(a: nat, b: nat)
    requires a <= b
    ensures Classify(a).1 <= Classify(b).1
    ensures Classify(b).0 == Normal ==> Classify(a).0 == Normal
    ensures (Classify(b).0 == Substandard || Classify(b).0 == Doubtful || Classify(b).0 == Loss) <==> b > 90
  {
  }

  // ---------------------------------------------------------------------------
  // One loan, one day
  // ---------------------------------------------------------------------------

  function OldestUnpaid(rows: seq<Installment>, paid: seq<nat>, day: int): (due: Option<int>)
    requires |paid| == |rows|
    ensures due.Some? ==> due.value <= day
  {
    if rows == [] then None
    else
      var later := OldestUnpaid(rows[1..], paid[1..], day);
      if rows[0].due <= day && paid[0] < rows[0].totalDue && (later == None || rows[0].due <= later.value)
      then Some(rows[0].due) else later
  }

  predicate OpenRow(rows: seq<Installment>, paid: seq<nat>, day: int, i: nat)
    requires |paid| == |rows| && i < |rows|
  {
    rows[i].due <= day && paid[i] < rows[i].totalDue
  }

  /** The date found is that of an open instalment and none is older; without one, nothing
      due by the day is open. */
  lemma {:induction false} OldestIsOldest(rows: seq<Installment>, paid: seq<nat>, day: int)
    requires |paid| == |rows|
    ensures var due := OldestUnpaid(rows, paid, day);
      && (due.Some? ==> exists i | 0 <= i < |rows| :: OpenRow(rows, paid, day, i) && rows[i].due == due.value)
      && (forall i | 0 <= i < |rows| && OpenRow(rows, paid, day, i) :: due.Some? && due.value <= rows[i].due)
  {
    if rows != [] {
      OldestIsOldest(rows[1..], paid[1..], day);
      var later := OldestUnpaid(rows[1..], paid[1..], day);
      if later.Some? {
        var i :| 0 <= i < |rows| - 1 && OpenRow(rows[1..], paid[1..], day, i) && rows[1..][i].due == later.value;
        assert OpenRow(rows, paid, day, i + 1);
      }
      if OpenRow(rows, paid, day, 0) {
      }
      forall i | 0 < i < |rows| && OpenRow(rows, paid, day, i)
        ensures later.Some? && later.value <= rows[i].due
      {
        assert OpenRow(rows[1..], paid[1..], day, i - 1);
      }
    }
  }

  function ArrearsAmount(rows: seq<Installment>, paid: seq<nat>, day: int): (a: nat)
    requires |paid| == |rows|
  {
    if rows == [] then 0
    else
      var open := if rows[0].due <= day && paid[0] < rows[0].totalDue then rows[0].totalDue - paid[0] else 0;
      open + ArrearsAmount(rows[1..], paid[1..], day)
  }

  /** The arrears are what is open: nothing exactly when no instalment is, and cash against
      an open one lowers them by as much. */
  lemma {:induction false} ArrearsAreOpen(rows: seq<Installment>, paid: seq<nat>, day: int, i: nat, cash: nat)
    requires |paid| == |rows| && i < |rows| && OpenRow(rows, paid, day, i) && paid[i] + cash <= rows[i].totalDue
    ensures ArrearsAmount(rows, paid[i := paid[i] + cash], day) == ArrearsAmount(rows, paid, day) - cash
    ensures rows[i].totalDue - paid[i] <= ArrearsAmount(rows, paid, day)
  {
    var less := paid[i := paid[i] + cash];
    if i > 0 {
      assert less[1..] == paid[1..][i - 1 := paid[i] + cash];
      ArrearsAreOpen(rows[1..], paid[1..], day, i - 1, cash);
    } else {
      assert less[1..] == paid[1..];
    }
  }

  lemma {:induction false} NothingOpen(rows: seq<Installment>, paid: seq<nat>, day: int)
    requires |paid| == |rows| && forall i | 0 <= i < |rows| :: !OpenRow(rows, paid, day, i)
    ensures ArrearsAmount(rows, paid, day) == 0
  {
    if rows != [] {
      assert !OpenRow(rows, paid, day, 0);
      forall i | 0 <= i < |rows| - 1 ensures !OpenRow(rows[1..], paid[1..], day, i) {
        assert !OpenRow(rows, paid, day, i + 1);
      }
      NothingOpen(rows[1..], paid[1..], day);
    }
  }

  function DaysPastDue(f: File, day: int): nat {
    match OldestUnpaid(f.rows, f.paid, day)
    case None => 0
    case Some(due) => day - due
  }

  /** The day's penalty: only past grace, on a basis that never contains penalties. */
  function DayCharge(f: File, config: Option<Config>, day: int): nat {
    match config
    case None => 0
    case Some(c) =>
      if DaysPastDue(f, day) <= c.grace then 0
      else DailyPenalty(if c.onArrears then ArrearsAmount(f.rows, f.paid, day) else f.balance, c.rate)
  }

  function Classified(f: File, day: int): File {
    var dpd := DaysPastDue(f, day);
    f.(dpd := dpd, grade := Classify(dpd).0, provision := Classify(dpd).1)
  }

  /** The claim for a day is made once, and only for a positive amount. */
  function Charged(f: File, config: Option<Config>, day: int): File {
    var charge := DayCharge(f, config, day);
    if day in f.claims || charge == 0 then f
    else f.(penaltyDue := f.penaltyDue + charge, claims := f.claims[day := charge])
  }

  function Processed(f: File, config: Option<Config>, day: int): File { Charged(Classified(f, day), config, day) }

  function Tallied(t: Tally, f: File, config: Option<Config>, day: int): Tally {
    var charge := DayCharge(f, config, day);
    var claims := day !in f.claims && charge > 0;
    Tally(if Classified(f, day) == f then t.updated else t.updated + 1,
          if claims then t.accrued + 1 else t.accrued, if claims then t.total + charge else t.total)
  }

  function Work(config: Option<Config>, day: int): (Tally, File) -> (Tally, File) {
    (t: Tally, f: File) => (Tallied(t, f, config, day), Processed(f, config, day))
  }

  /** What the scan returns: active loans, less those another transaction holds locked when it
      reaches them (SKIP LOCKED). The cursor passes a row once, so one set says which. */
  function Scanned(held: set<nat>): (nat, File) -> bool { (i: nat, f: File) => f.active && i !in held }

  // ---------------------------------------------------------------------------
  // What the job does to a row
  // ---------------------------------------------------------------------------

  /** The greatest number of days an open instalment is overdue; zero when none is open. */
  ghost predicate Overdue(f: File, day: int, n: nat) {
    && (forall i | 0 <= i < |f.rows| && OpenRow(f.rows, f.paid, day, i) :: day - f.rows[i].due <= n)
    && (n > 0 ==> exists i | 0 <= i < |f.rows| :: OpenRow(f.rows, f.paid, day, i) && day - f.rows[i].due == n)
  }

  lemma OverdueIsUnique(f: File, day: int, m: nat, n: nat)
    requires Overdue(f, day, m) && Overdue(f, day, n)
    ensures m == n
  {
  }

  /** Classes by name, from worst to best. */
  ghost predicate Graded(dpd: nat, grade: LoanClass, provision: nat) {
    && (dpd > 360 ==> grade == Loss && provision == 100)
    && (180 < dpd <= 360 ==> grade == Doubtful && provision == 50)
    && (90 < dpd <= 180 ==> grade == Substandard && provision == 25)
    && (30 < dpd <= 90 ==> grade == Watch && provision == 5)
    && (dpd <= 30 ==> grade == Normal && provision == 1)
  }

  /** The day's charge: nothing without a configuration or within the grace days; past them,
      the configured monthly rate for a thirtieth of a month, to the nearest cent, on the
      open instalments or on the outstanding principal. */
  ghost predicate Charges(f: File, config: Option<Config>, day: int, dpd: nat, cents: nat) {
    if config == None || dpd <= config.value.grace then cents == 0
    else
      var c := config.value;
      var basis := if c.onArrears then ArrearsAmount(f.rows, f.paid, day) else f.balance;
      600_000 * cents <= 2 * (basis * c.rate) + 300_000 < 600_000 * cents + 600_000
  }

  /** The row the job leaves: reclassified, and charged once for the day. */
  ghost predicate Serviced(f: File, config: Option<Config>, day: int, g: File) {
    && Overdue(f, day, g.dpd) && Graded(g.dpd, g.grade, g.provision)
    && f.active == g.active && f.balance == g.balance && f.rows == g.rows && f.paid == g.paid
    && exists cents: nat | Charges(f, config, day, g.dpd, cents) ::
         if day in f.claims || cents == 0 then g.penaltyDue == f.penaltyDue && g.claims == f.claims
         else g.penaltyDue == f.penaltyDue + cents && g.claims == f.claims[day := cents]
  }

  lemma DaysArePastDue(f: File, day: int)
    ensures Overdue(f, day, DaysPastDue(f, day))
  {
    OldestIsOldest(f.rows, f.paid, day);
  }

  lemma ChargeIsDaily(f: File, config: Option<Config>, day: int)
    ensures Charges(f, config, day, DaysPastDue(f, day), DayCharge(f, config, day))
  {
  }

  lemma ProcessedIsServiced(f: File, config: Option<Config>, day: int)
    ensures Serviced(f, config, day, Processed(f, config, day))
  {
    var classified := Classified(f, day);
    DaysArePastDue(f, day);
    ChargeIsDaily(f, config, day);
    assert DayCharge(classified, config, day) == DayCharge(f, config, day);
  }

  /** Rows whose classification moved, and rows that were charged, from a row on. */
  function Moves(before: seq<File>, after: seq<File>): (n: (nat, nat))
    requires |before| == |after|
  {
    if before == [] then (0, 0)
    else
      var (k, f, g) := (|before| - 1, before[|before| - 1], after[|before| - 1]);
      var (moved, charged) := Moves(before[..k], after[..k]);
      (if (f.dpd, f.grade, f.provision) != (g.dpd, g.grade, g.provision) then moved + 1 else moved,
       if f.claims != g.claims then charged + 1 else charged)
  }

  /** The counts a job reports are those of the rows it reclassified and charged. */
  lemma {:induction false} CountsAreChanges(table: seq<File>, held: set<nat>, config: Option<Config>, day: int,
                                            swept: seq<File>)
    requires swept == Sweep(Tally(0, 0, 0), table, 0, Scanned(held), Work(config, day)).1
    ensures var tally := Sweep(Tally(0, 0, 0), table, 0, Scanned(held), Work(config, day)).0;
      Moves(table, swept) == (tally.updated, tally.accrued)
    decreases |table|
  {
    if table != [] {
      var k, last := |table| - 1, table[|table| - 1];
      var init := Sweep(Tally(0, 0, 0), table[..k], 0, Scanned(held), Work(config, day)).1;
      assert table == table[..k] + [last];
      CountsAreChanges(table[..k], held, config, day, init);
      SweepLast(Tally(0, 0, 0), table[..k], last, 0, Scanned(held), Work(config, day));
      assert swept[..k] == init;
      LastRowCounts(last, config, day);
    }
  }

  lemma LastRowCounts(f: File, config: Option<Config>, day: int)
    ensures var g := Processed(f, config, day);
      && (Classified(f, day) == f <==> (f.dpd, f.grade, f.provision) == (g.dpd, g.grade, g.provision))
      && (f.claims != g.claims <==> day !in f.claims && DayCharge(f, config, day) > 0)
  {
    assert DayCharge(Classified(f, day), config, day) == DayCharge(f, config, day);
  }

  // ---------------------------------------------------------------------------
  // Reruns
  // ---------------------------------------------------------------------------

  /** A second run for the same day updates nothing and accrues nothing. */
  lemma SameDayIsIdle(t: Tally, f: File, config: Option<Config>, day: int)
    ensures Processed(Processed(f, config, day), config, day) == Processed(f, config, day)
    ensures Tallied(t, Processed(f, config, day), config, day) == t
  {
    var once := Processed(f, config, day);
    assert DaysPastDue(once, day) == DaysPastDue(f, day);
    assert DayCharge(once, config, day) == DayCharge(f, config, day);
  }

  /** The job leaves every scanned row processed for the day and every other row alone. */
  lemma {:induction false} SweptFile(t: Tally, table: seq<File>, from: nat, held: set<nat>, config: Option<Config>,
                                     day: int, i: nat)
    requires from <= |table| && i < |table|
    ensures Sweep(t, table, from, Scanned(held), Work(config, day)).1[i]
         == if i >= from && table[i].active && i !in held then Processed(table[i], config, day) else table[i]
    decreases |table| - from
  {
    if from < |table| {
      if Scanned(held)(from, table[from]) {
        var (next, row) := Work(config, day)(t, table[from]);
        SweptFile(next, table[from := row], from + 1, held, config, day, i);
      } else {
        SweptFile(t, table, from + 1, held, config, day, i);
      }
    }
  }

  lemma {:induction false} SettledIsIdle(t: Tally, table: seq<File>, from: nat, held: set<nat>, config: Option<Config>,
                                         day: int)
    requires from <= |table|
    requires forall i | from <= i < |table| && Scanned(held)(i, table[i]) ::
               Processed(table[i], config, day) == table[i] && Tallied(t, table[i], config, day) == t
    ensures Sweep(t, table, from, Scanned(held), Work(config, day)) == (t, table)
    decreases |table| - from
  {
    if from < |table| {
      if Scanned(held)(from, table[from]) {
        assert table[from := table[from]] == table;
      }
      SettledIsIdle(t, table, from + 1, held, config, day);
    }
  }

  /** ... so a second job for the same day changes no row and ends with an empty tally, but
      for the rows the first one found locked. */
  lemma SecondJobIsIdle(t: Tally, d: Tally, table: seq<File>, held: set<nat>, again: set<nat>, config: Option<Config>,
                        day: int)
    requires held <= again
    ensures var swept := Sweep(t, table, 0, Scanned(held), Work(config, day)).1;
      Sweep(d, swept, 0, Scanned(again), Work(config, day)) == (d, swept)
  {
    var swept := Sweep(t, table, 0, Scanned(held), Work(config, day)).1;
    forall i | 0 <= i < |swept| && Scanned(again)(i, swept[i])
      ensures Processed(swept[i], config, day) == swept[i] && Tallied(d, swept[i], config, day) == d
    {
      SweptFile(t, table, 0, held, config, day, i);
      SameDayIsIdle(d, table[i], config, day);
    }
    SettledIsIdle(d, swept, 0, again, config, day);
  }

  function PenaltyTotal(table: seq<File>): (s: nat) {
    if table == [] then 0 else PenaltyTotal(table[..|table| - 1]) + table[|table| - 1].penaltyDue
  }

  lemma {:induction false} TotalMoves(table: seq<File>, i: nat, row: File)
    requires i < |table|
    ensures PenaltyTotal(table[i := row]) == PenaltyTotal(table) - table[i].penaltyDue + row.penaltyDue
  {
    var n := |table| - 1;
    if i == n {
      assert table[i := row][..n] == table[..n];
    } else {
      assert table[i := row][..n] == table[..n][i := row];
      TotalMoves(table[..n], i, row);
    }
  }

  /** The total a job reports is exactly what it added to the loans' penalties. */
  lemma {:induction false} TallyIsConserved(t: Tally, table: seq<File>, from: nat, held: set<nat>,
                                            config: Option<Config>, day: int)
    requires from <= |table|
    ensures var (end, swept) := Sweep(t, table, from, Scanned(held), Work(config, day));
      PenaltyTotal(swept) - PenaltyTotal(table) == end.total - t.total
    decreases |table| - from
  {
    if from < |table| {
      if Scanned(held)(from, table[from]) {
        var (next, row) := Work(config, day)(t, table[from]);
        TotalMoves(table, from, row);
        TallyIsConserved(next, table[from := row], from + 1, held, config, day);
      } else {
        TallyIsConserved(t, table, from + 1, held, config, day);
      }
    }
  }

  /** The job for one day, batch by batch: every active loan it finds unlocked is serviced,
      no other row is touched, and the tally says how many rows were reclassified and charged
      and by how much penalties rose. */
  method RunArrears(table: seq<File>, held: set<nat>, config: Option<Config>, day: int, size: int)
    returns (result: Option<RunResult<Tally, File>>)
    ensures result.None? <==> size < 1
    ensures result.Some? ==>
              var run := result.value;
              && (run.total, run.rows) == Sweep(Tally(0, 0, 0), table, 0, Scanned(held), Work(config, day))
              && run.scanned == Pending(table, 0, Scanned(held))
              && run.batches == CeilDiv(Pending(table, 0, Scanned(held)), size)
              && |run.rows| == |table|
              && (forall i | 0 <= i < |table| ::
                    if table[i].active && i !in held then Serviced(table[i], config, day, run.rows[i])
                    else run.rows[i] == table[i])
              && Moves(table, run.rows) == (run.total.updated, run.total.accrued)
              && PenaltyTotal(run.rows) == PenaltyTotal(table) + run.total.total
  {
    result := RunInBatches(Tally(0, 0, 0), table, Scanned(held), Work(config, day), size);
    if result.Some? {
      forall i | 0 <= i < |table|
        ensures if table[i].active && i !in held then Serviced(table[i], config, day, result.value.rows[i])
                else result.value.rows[i] == table[i]
      {
        JobServices(table, held, config, day, result.value.rows, i);
      }
      CountsAreChanges(table, held, config, day, result.value.rows);
      TallyIsConserved(Tally(0, 0, 0), table, 0, held, config, day);
    }
  }

  lemma JobServices(table: seq<File>, held: set<nat>, config: Option<Config>, day: int, swept: seq<File>, i: nat)
    requires swept == Sweep(Tally(0, 0, 0), table, 0, Scanned(held), Work(config, day)).1
    requires i < |table| == |swept|
    ensures if table[i].active && i !in held then Serviced(table[i], config, day, swept[i]) else swept[i] == table[i]
  {
    SweptFile(Tally(0, 0, 0), table, 0, held, config, day, i);
    ProcessedIsServiced(table[i], config, day);
  }

  // ---------------------------------------------------------------------------
  // Any sequence of days
  // ---------------------------------------------------------------------------

  /** The job's effect on one active loan, day after day. */
  function AfterDays(f: File, config: Option<Config>, days: seq<int>): File {
    if days == [] then f
    else Processed(AfterDays(f, config, days[..|days| - 1]), config, days[|days| - 1])
  }

  function DaySet(days: seq<int>): set<int> { set d | d in days }

  ghost function SumOver(days: set<int>, charge: int -> nat): nat {
    if day: int :| day in days then charge(day) + SumOver(days - {day}, charge) else 0
  }

  lemma {:induction false} SumRemove(days: set<int>, charge: int -> nat, x: int)
    requires x in days
    ensures SumOver(days, charge) == charge(x) + SumOver(days - {x}, charge)
  {
    var d :| d in days && SumOver(days, charge) == charge(d) + SumOver(days - {d}, charge);
    if d != x {
      SumRemove(days - {d}, charge, x);
      SumRemove(days - {x}, charge, d);
      assert days - {d} - {x} == days - {x} - {d};
    }
  }

  /** The job never touches what the charge depends on. */
  ghost predicate SameContract(f: File, g: File) {
    g.active == f.active && g.balance == f.balance && g.rows == f.rows && g.paid == f.paid
  }

  function Charge(f: File, config: Option<Config>): int -> nat { (day: int) => DayCharge(f, config, day) }

  /** Days still to be charged: no claim yet. */
  function Unclaimed(f: File, days: seq<int>): set<int> { DaySet(days) - f.claims.Keys }

  lemma OneMoreDay(f: File, g: File, config: Option<Config>, day: int)
    requires SameContract(f, g)
    ensures var h := Processed(g, config, day);
      && SameContract(f, h)
      && h.penaltyDue == g.penaltyDue + (if day in g.claims then 0 else DayCharge(f, config, day))
      && (forall d :: d in h.claims <==> d in g.claims || (d == day && DayCharge(f, config, d) > 0))
  {
    assert DayCharge(Classified(g, day), config, day) == DayCharge(f, config, day);
  }

  /** Whatever the order and however often each day is run, penalties rise by exactly the
      sum of the charges of the distinct days not claimed before. */
  lemma {:induction false} PenaltiesAddUp(f: File, config: Option<Config>, days: seq<int>)
    ensures var g := AfterDays(f, config, days);
      && SameContract(f, g)
      && g.penaltyDue == f.penaltyDue + SumOver(Unclaimed(f, days), Charge(f, config))
      && (forall d :: d in g.claims <==> d in f.claims || (d in days && DayCharge(f, config, d) > 0))
  {
    if days != [] {
      var n := |days| - 1;
      var init, last := days[..n], days[n];
      PenaltiesAddUp(f, config, init);
      var g := AfterDays(f, config, init);
      assert days == init + [last];
      OneMoreDay(f, g, config, last);
      if last in f.claims || last in init {
        assert Unclaimed(f, days) == Unclaimed(f, init);
      } else {
        assert Unclaimed(f, days) - {last} == Unclaimed(f, init);
        SumRemove(Unclaimed(f, days), Charge(f, config), last);
      }
    }
  }

  /** So two schedules of runs over the same days end with the same penalties and claims. */
  lemma OrderOfRunsIsIrrelevant(f: File, config: Option<Config>, a: seq<int>, b: seq<int>)
    requires DaySet(a) == DaySet(b)
    ensures AfterDays(f, config, a).penaltyDue == AfterDays(f, config, b).penaltyDue
    ensures AfterDays(f, config, a).claims.Keys == AfterDays(f, config, b).claims.Keys
  {
    PenaltiesAddUp(f, config, a);
    PenaltiesAddUp(f, config, b);
    assert forall d :: (d in a <==> d in DaySet(a)) && (d in b <==> d in DaySet(b));
    var (x, y) := (AfterDays(f, config, a).claims, AfterDays(f, config, b).claims);
    assert forall d :: d in x <==> d in y;
  }

  /** One nightly run, and the rows it finds locked by others. */
  datatype Job = Job(day: int, held: set<nat>)

  /** The whole job, one run after another. */
  function AfterJobs(table: seq<File>, config: Option<Config>, jobs: seq<Job>): (after: seq<File>)
    ensures |after| == |table|
    decreases |jobs|
  {
    if jobs == [] then table
    else
      var before, last := AfterJobs(table, config, jobs[..|jobs| - 1]), jobs[|jobs| - 1];
      Sweep(Tally(0, 0, 0), before, 0, Scanned(last.held), Work(config, last.day)).1
  }

  /** The days on which a run reaches row `i`. */
  function DaysFor(jobs: seq<Job>, i: nat): (days: seq<int>) {
    if jobs == [] then []
    else
      var earlier, last := DaysFor(jobs[..|jobs| - 1], i), jobs[|jobs| - 1];
      if i in last.held then earlier else earlier + [last.day]
  }

  /** Over any finite sequence of runs, their days in any order and with repeats, each active
      loan's penalties rise by exactly the charges of the distinct unclaimed days on which a
      run reached it. */
  lemma {:induction false} JobsAddUp(table: seq<File>, config: Option<Config>, jobs: seq<Job>, i: nat)
    requires i < |table|
    ensures var f := table[i];
      AfterJobs(table, config, jobs)[i] == (if f.active then AfterDays(f, config, DaysFor(jobs, i)) else f)
    ensures table[i].active ==>
      AfterJobs(table, config, jobs)[i].penaltyDue
      == table[i].penaltyDue + SumOver(Unclaimed(table[i], DaysFor(jobs, i)), Charge(table[i], config))
    decreases |jobs|
  {
    PenaltiesAddUp(table[i], config, DaysFor(jobs, i));
    if jobs != [] {
      var init, last := jobs[..|jobs| - 1], jobs[|jobs| - 1];
      var days := DaysFor(init, i);
      JobsAddUp(table, config, init, i);
      PenaltiesAddUp(table[i], config, days);
      SweptFile(Tally(0, 0, 0), AfterJobs(table, config, init), 0, last.held, config, last.day, i);
      assert (days + [last.day])[..|days|] == days;
    }
  }
}
