/** Loan schedules and the replay of repayments over them.

    A repayment's cash (interest plus principal) is applied to the instalments due on or
    before its date, oldest first, capped per row. `Pass` follows that loop row by row.
    The closed form is a single number, the cash absorbed so far: `Waterfall` spreads it
    over the rows and `Advance` says how one repayment moves it. */
module Schedules {

  /** One contractual row of loan_schedules. Amounts are cents, dates are day numbers. */
  datatype Installment = Installment(due: int, interestDue: nat, totalDue: nat)

  /** The cash a surviving repayment brings to the schedule. */
  datatype Payment = Payment(day: int, cash: nat)

  function Min(a: int, b: int): int { if a <= b then a else b }

  function Max(a: int, b: int): int { if a >= b then a else b }

  ghost predicate DueInOrder(rows: seq<Installment>) {
    forall i, j | 0 <= i < j < |rows| :: rows[i].due <= rows[j].due
  }

  ghost predicate DayOrdered(payments: seq<Payment>) {
    forall i, j | 0 <= i < j < |payments| :: payments[i].day <= payments[j].day
  }

  ghost predicate NoLaterThan(payments: seq<Payment>, day: int) {
    forall i | 0 <= i < |payments| :: payments[i].day <= day
  }

  ghost predicate LaterThan(payments: seq<Payment>, day: int) {
    forall i | 0 <= i < |payments| :: payments[i].day > day
  }

  function Zeros(n: nat): (z: seq<int>)
    ensures |z| == n && forall i | 0 <= i < n :: z[i] == 0
  {
    seq(n, i => 0)
  }

  // ---------------------------------------------------------------------------
  // What the loops do
  // ---------------------------------------------------------------------------

  /** One repayment's forward pass over the rows. */
  function Pass(rows: seq<Installment>, paid: seq<int>, day: int, remaining: int): (after: seq<int>)
    requires |paid| == |rows|
    ensures |after| == |rows|
  {
    if rows == [] || remaining <= 0 then paid
    else if rows[0].due > day || paid[0] >= rows[0].totalDue then
      [paid[0]] + Pass(rows[1..], paid[1..], day, remaining)
    else
      var pay := Min(remaining, rows[0].totalDue - paid[0]);
      [paid[0] + pay] + Pass(rows[1..], paid[1..], day, remaining - pay)
  }

  /** All rows reset to zero, then one pass per payment in the given order. */
  function ReplayPaid(rows: seq<Installment>, payments: seq<Payment>): (paid: seq<int>)
    ensures |paid| == |rows|
  {
    if payments == [] then Zeros(|rows|)
    else
      var last := payments[|payments| - 1];
      Pass(rows, ReplayPaid(rows, payments[..|payments| - 1]), last.day, last.cash)
  }

  /** What one row takes of the remaining cash. */
  function Take(row: Installment, paid: int, day: int, remaining: int): int {
    if row.due <= day && row.totalDue > paid then Min(remaining, row.totalDue - paid) else 0
  }

  /** The same pass read by row number. */
  ghost function PassFrom(rows: seq<Installment>, paid: seq<int>, i: nat, day: int, remaining: int): (rest: seq<int>)
    requires |paid| == |rows| && i <= |rows|
    decreases |rows| - i
  {
    if i == |rows| then []
    else
      var take := Take(rows[i], paid[i], day, remaining);
      [paid[i] + take] + PassFrom(rows, paid, i + 1, day, remaining - take)
  }

  lemma PassStops(rows: seq<Installment>, paid: seq<int>, day: int, remaining: int)
    requires |paid| == |rows| && (rows == [] || remaining <= 0)
    ensures Pass(rows, paid, day, remaining) == paid
  {
  }

  /** The first row takes its share and the rest of the pass follows. */
  lemma PassSplits(rows: seq<Installment>, paid: seq<int>, day: int, remaining: int)
    requires |paid| == |rows| && rows != [] && remaining >= 0
    ensures var take := Take(rows[0], paid[0], day, remaining);
      Pass(rows, paid, day, remaining) == [paid[0] + take] + Pass(rows[1..], paid[1..], day, remaining - take)
  {
    if remaining == 0 {
      PassStops(rows, paid, day, 0);
      PassStops(rows[1..], paid[1..], day, 0);
      assert paid == [paid[0]] + paid[1..];
    }
  }

  lemma {:induction false} PassByRow(rows: seq<Installment>, paid: seq<int>, i: nat, day: int, remaining: int)
    requires |paid| == |rows| && i <= |rows| && remaining >= 0
    ensures PassFrom(rows, paid, i, day, remaining) == Pass(rows[i..], paid[i..], day, remaining)
    decreases |rows| - i
  {
    if i < |rows| {
      PassByRow(rows, paid, i + 1, day, remaining - Take(rows[i], paid[i], day, remaining));
      PassSplits(rows[i..], paid[i..], day, remaining);
      assert rows[i..][1..] == rows[i + 1..] && paid[i..][1..] == paid[i + 1..];
    }
  }

  lemma WholePass(rows: seq<Installment>, paid: seq<int>, day: int, cash: nat)
    requires |paid| == |rows|
    ensures PassFrom(rows, paid, 0, day, cash) == Pass(rows, paid, day, cash)
  {
    PassByRow(rows, paid, 0, day, cash);
    assert rows[0..] == rows && paid[0..] == paid;
  }

  lemma {:induction false} RestUntouched(rows: seq<Installment>, paid: seq<int>, i: nat, day: int, remaining: int)
    requires |paid| == |rows| && i <= |rows| && (i == |rows| || remaining == 0)
    ensures PassFrom(rows, paid, i, day, remaining) == paid[i..]
    decreases |rows| - i
  {
    if i < |rows| {
      RestUntouched(rows, paid, i + 1, day, remaining);
    }
  }

  lemma Shift(done: seq<int>, x: int, rest: seq<int>)
    ensures done + ([x] + rest) == done + [x] + rest
  {
  }

  /** The inner loop: apply one repayment's cash to the rows that are due. */
  method ApplyCash(rows: seq<Installment>, paid: seq<int>, day: int, cash: nat) returns (after: seq<int>)
    requires |paid| == |rows|
    ensures after == Pass(rows, paid, day, cash)
  {
    ghost var whole := PassFrom(rows, paid, 0, day, cash);
    var remaining, i: nat := cash, 0;
    after := [];
    while i < |rows| && remaining > 0
      invariant |after| == i <= |rows| && remaining >= 0
      invariant whole == after + PassFrom(rows, paid, i, day, remaining)
    {
      var pay := 0;
      var open := rows[i].totalDue - paid[i];
      if rows[i].due <= day && open > 0 {
        pay := Min(remaining, open);
      }
      Shift(after, paid[i] + pay, PassFrom(rows, paid, i + 1, day, remaining - pay));
      after := after + [paid[i] + pay];
      remaining := remaining - pay;
      i := i + 1;
    }
    RestUntouched(rows, paid, i, day, remaining);
    after := after + paid[i..];
    WholePass(rows, paid, day, cash);
  }

  /** The nested replay: reset every row, then run the survivors through the inner loop. */
  method RebuildPaid(rows: seq<Installment>, survivors: seq<Payment>) returns (paid: seq<int>)
    ensures paid == ReplayPaid(rows, survivors)
  {
    paid := Zeros(|rows|);
    for k := 0 to |survivors|
      invariant paid == ReplayPaid(rows, survivors[..k])
    {
      assert survivors[..k + 1][..k] == survivors[..k];
      paid := ApplyCash(rows, paid, survivors[k].day, survivors[k].cash);
    }
    assert survivors[..|survivors|] == survivors;
  }

  // ---------------------------------------------------------------------------
  // The closed form
  // ---------------------------------------------------------------------------

  /** Total due on the rows falling due on or before `day`. */
  function DueBy(rows: seq<Installment>, day: int): (d: nat) {
    if rows == [] then 0
    else (if rows[0].due <= day then rows[0].totalDue else 0) + DueBy(rows[1..], day)
  }

  /** Total due on the first `n` rows. */
  function DueBefore(rows: seq<Installment>, n: nat): (d: nat)
    requires n <= |rows|
  {
    if n == 0 then 0 else rows[0].totalDue + DueBefore(rows[1..], n - 1)
  }

  function Clamp(x: int, cap: nat): int { Max(0, Min(x, cap)) }

  /** `total` poured over the rows oldest first. */
  function Waterfall(rows: seq<Installment>, total: int): (paid: seq<int>)
    ensures |paid| == |rows|
  {
    if rows == [] then []
    else [Clamp(total, rows[0].totalDue)] + Waterfall(rows[1..], total - rows[0].totalDue)
  }

  /** How one repayment moves the running total, given the total due by its date. */
  function Advance(total: int, cash: int, dueBy: int): int {
    Max(total, Min(total + cash, dueBy))
  }

  function ReplayFrom(rows: seq<Installment>, start: int, payments: seq<Payment>): int {
    if payments == [] then start
    else
      var last := payments[|payments| - 1];
      Advance(ReplayFrom(rows, start, payments[..|payments| - 1]), last.cash, DueBy(rows, last.day))
  }

  function ReplayTotal(rows: seq<Installment>, payments: seq<Payment>): int {
    ReplayFrom(rows, 0, payments)
  }

  /** Row `i` of a waterfall: the total less the dues of the earlier rows, clamped to its own due. */
  lemma {:induction false} WaterfallRow(rows: seq<Installment>, total: int, i: nat)
    requires i < |rows|
    ensures Waterfall(rows, total)[i] == Clamp(total - DueBefore(rows, i), rows[i].totalDue)
  {
    if i > 0 {
      WaterfallRow(rows[1..], total - rows[0].totalDue, i - 1);
    }
  }

  lemma {:induction false} DueBeforeMonotone(rows: seq<Installment>, i: nat, j: nat)
    requires i <= j <= |rows|
    ensures DueBefore(rows, i) + (if i < j then rows[i].totalDue else 0) <= DueBefore(rows, j)
  {
    if i > 0 {
      DueBeforeMonotone(rows[1..], i - 1, j - 1);
    }
  }

  /** Paid rows are filled oldest first and never beyond their due. */
  lemma OldestFirst(rows: seq<Installment>, total: int)
    ensures forall i | 0 <= i < |rows| :: 0 <= Waterfall(rows, total)[i] <= rows[i].totalDue
    ensures forall i, j | 0 <= i < j < |rows| && Waterfall(rows, total)[j] > 0 ::
              Waterfall(rows, total)[i] == rows[i].totalDue
  {
    forall i | 0 <= i < |rows|
      ensures 0 <= Waterfall(rows, total)[i] <= rows[i].totalDue
    {
      WaterfallRow(rows, total, i);
    }
    forall i, j | 0 <= i < j < |rows| && Waterfall(rows, total)[j] > 0
      ensures Waterfall(rows, total)[i] == rows[i].totalDue
    {
      WaterfallRow(rows, total, i);
      WaterfallRow(rows, total, j);
      DueBeforeMonotone(rows, i, j);
    }
  }

  lemma {:induction false} WaterfallEmpty(rows: seq<Installment>, total: int)
    requires total <= 0
    ensures Waterfall(rows, total) == Zeros(|rows|)
  {
    if rows != [] {
      WaterfallEmpty(rows[1..], total - rows[0].totalDue);
    }
  }

  lemma {:induction false} WaterfallMonotone(rows: seq<Installment>, low: int, high: int)
    requires low <= high
    ensures forall i | 0 <= i < |rows| :: Waterfall(rows, low)[i] <= Waterfall(rows, high)[i]
  {
    if rows != [] {
      WaterfallMonotone(rows[1..], low - rows[0].totalDue, high - rows[0].totalDue);
    }
  }

  lemma {:induction false} NothingDue(rows: seq<Installment>, paid: seq<int>, day: int, cash: int)
    requires |paid| == |rows| && forall i | 0 <= i < |rows| :: rows[i].due > day
    ensures Pass(rows, paid, day, cash) == paid && DueBy(rows, day) == 0
  {
    if rows != [] {
      NothingDue(rows[1..], paid[1..], day, cash);
    }
  }

  lemma {:induction false} DueByMonotone(rows: seq<Installment>, a: int, b: int)
    requires a <= b
    ensures DueBy(rows, a) <= DueBy(rows, b)
  {
    if rows != [] {
      DueByMonotone(rows[1..], a, b);
    }
  }

  /** A row not yet full: every later row of the waterfall is still empty. */
  lemma LaterRowsEmpty(rows: seq<Installment>, total: int)
    requires rows != [] && 0 <= total <= rows[0].totalDue
    ensures Waterfall(rows[1..], total - rows[0].totalDue) == Waterfall(rows[1..], 0)
  {
    WaterfallEmpty(rows[1..], total - rows[0].totalDue);
    WaterfallEmpty(rows[1..], 0);
  }

  /** Cash fills the open first row, and what is left over flows on to the later rows. */
  lemma PassFillsFirst(rows: seq<Installment>, total: int, day: int, cash: int)
    requires rows != [] && rows[0].due <= day && 0 <= total < rows[0].totalDue && cash > 0
    ensures Pass(rows, Waterfall(rows, total), day, cash)
         == [Min(total + cash, rows[0].totalDue)]
            + Pass(rows[1..], Waterfall(rows[1..], 0), day, Max(0, cash - (rows[0].totalDue - total)))
  {
    LaterRowsEmpty(rows, total);
    assert Waterfall(rows, total)[1..] == Waterfall(rows[1..], 0);
  }

  lemma WaterfallFillsFirst(rows: seq<Installment>, total: int, day: int, cash: int)
    requires rows != [] && rows[0].due <= day && 0 <= total < rows[0].totalDue && cash > 0
    ensures Waterfall(rows, Advance(total, cash, DueBy(rows, day)))
         == [Min(total + cash, rows[0].totalDue)]
            + Waterfall(rows[1..], Advance(0, Max(0, cash - (rows[0].totalDue - total)), DueBy(rows[1..], day)))
  {
    var own := rows[0].totalDue;
    if total + cash <= own {
      LaterRowsEmpty(rows, total + cash);
    }
  }

  /** One pass over a waterfall is again a waterfall, with the total advanced. */
  lemma {:induction false} PassAdvances(rows: seq<Installment>, total: int, day: int, cash: int)
    requires DueInOrder(rows) && total >= 0 && cash >= 0
    ensures Pass(rows, Waterfall(rows, total), day, cash)
         == Waterfall(rows, Advance(total, cash, DueBy(rows, day)))
  {
    if rows == [] || cash == 0 {
    } else if rows[0].due > day {
      NothingDue(rows, Waterfall(rows, total), day, cash);
    } else if total >= rows[0].totalDue {
      PassAdvances(rows[1..], total - rows[0].totalDue, day, cash);
    } else {
      var over := Max(0, cash - (rows[0].totalDue - total));
      PassAdvances(rows[1..], 0, day, over);
      PassFillsFirst(rows, total, day, cash);
      WaterfallFillsFirst(rows, total, day, cash);
    }
  }

  /** The nested loops compute the closed form, whatever the order of the payments. */
  lemma {:induction false} ReplayIsWaterfall(rows: seq<Installment>, payments: seq<Payment>)
    requires DueInOrder(rows)
    ensures ReplayTotal(rows, payments) >= 0
    ensures ReplayPaid(rows, payments) == Waterfall(rows, ReplayTotal(rows, payments))
  {
    if payments == [] {
      WaterfallEmpty(rows, 0);
    } else {
      var init, last := payments[..|payments| - 1], payments[|payments| - 1];
      ReplayIsWaterfall(rows, init);
      PassAdvances(rows, ReplayTotal(rows, init), last.day, last.cash);
    }
  }

  /** In date order no payment ever overshoots the dues of its date, so the step is
      simply T = min(T + cash, total due by that date). */
  lemma {:induction false} OrderedReplayStep(rows: seq<Installment>, payments: seq<Payment>)
    requires DayOrdered(payments) && payments != []
    ensures ReplayTotal(rows, payments)
         == Min(ReplayTotal(rows, payments[..|payments| - 1]) + payments[|payments| - 1].cash,
                DueBy(rows, payments[|payments| - 1].day))
  {
    var init, last := payments[..|payments| - 1], payments[|payments| - 1];
    if init != [] {
      OrderedReplayStep(rows, init);
      DueByMonotone(rows, init[|init| - 1].day, last.day);
    }
  }

  lemma {:induction false} ReplayFromMonotone(rows: seq<Installment>, low: int, high: int, payments: seq<Payment>)
    requires low <= high
    ensures low <= ReplayFrom(rows, low, payments) <= ReplayFrom(rows, high, payments)
  {
    if payments != [] {
      ReplayFromMonotone(rows, low, high, payments[..|payments| - 1]);
    }
  }

  lemma {:induction false} ReplayConcat(rows: seq<Installment>, start: int, a: seq<Payment>, b: seq<Payment>)
    ensures ReplayFrom(rows, start, a + b) == ReplayFrom(rows, ReplayFrom(rows, start, a), b)
  {
    if b == [] {
      assert a + b == a;
    } else {
      assert (a + b)[..|a + b| - 1] == a + b[..|b| - 1];
      ReplayConcat(rows, start, a, b[..|b| - 1]);
    }
  }

  // ---------------------------------------------------------------------------
  // Order and omission
  // ---------------------------------------------------------------------------

  lemma {:induction false} MovePastSameDay(rows: seq<Installment>, start: int, x: Payment, ys: seq<Payment>)
    requires forall y | y in ys :: y.day == x.day
    ensures ReplayFrom(rows, start, [x] + ys) == ReplayFrom(rows, start, ys + [x])
  {
    if ys == [] {
      assert [x] + ys == ys + [x];
    } else {
      var init, y := ys[..|ys| - 1], ys[|ys| - 1];
      assert ([x] + ys)[..|ys|] == [x] + init && (ys + [x])[..|ys|] == ys;
      assert (init + [x])[..|init|] == init;
      assert y in ys;
      MovePastSameDay(rows, start, x, init);
    }
  }

  lemma CancelOne(a: multiset<Payment>, b: multiset<Payment>, x: Payment)
    requires a + multiset{x} == b + multiset{x}
    ensures a == b
  {
    forall y ensures a[y] == b[y] {
      assert (a + multiset{x})[y] == (b + multiset{x})[y];
    }
  }

  function Without(p: seq<Payment>, j: nat): seq<Payment>
    requires j < |p|
  {
    p[..j] + p[j + 1..]
  }

  lemma WithoutOne(p: seq<Payment>, j: nat)
    requires j < |p|
    ensures p == p[..j] + ([p[j]] + p[j + 1..])
    ensures multiset(p) == multiset(Without(p, j)) + multiset{p[j]}
  {
    assert p == p[..j] + ([p[j]] + p[j + 1..]);
  }

  lemma WithoutStaysOrdered(p: seq<Payment>, j: nat)
    requires j < |p| && DayOrdered(p)
    ensures DayOrdered(Without(p, j))
  {
  }

  /** The last of a group of same-day payments can be any of them. */
  lemma TakenLast(rows: seq<Installment>, before: seq<Payment>, x: Payment, after: seq<Payment>)
    requires forall y | y in after :: y.day == x.day
    ensures ReplayTotal(rows, before + ([x] + after))
         == Advance(ReplayTotal(rows, before + after), x.cash, DueBy(rows, x.day))
  {
    ReplayConcat(rows, 0, before, [x] + after);
    MovePastSameDay(rows, ReplayFrom(rows, 0, before), x, after);
    ReplayConcat(rows, 0, before, after);
    assert (after + [x])[..|after|] == after;
  }

  /** The last payment of one order, found in another order of the same payments: all that
      follows it there has its date. */
  lemma FindLast(p: seq<Payment>, q: seq<Payment>) returns (j: nat)
    requires DayOrdered(p) && DayOrdered(q) && multiset(p) == multiset(q) && p != []
    ensures j < |q| && q[j] == p[|p| - 1]
    ensures forall y | y in q[j + 1..] :: y.day == q[j].day
  {
    var x := p[|p| - 1];
    assert x in multiset(q);
    j :| 0 <= j < |q| && q[j] == x;
    forall y | y in q[j + 1..] ensures y.day == x.day {
      assert y in multiset(p);
      var k :| 0 <= k < |p| && p[k] == y;
    }
  }

  lemma SameWithout(p: seq<Payment>, q: seq<Payment>, j: nat)
    requires multiset(p) == multiset(q) && p != [] && j < |q| && q[j] == p[|p| - 1]
    ensures multiset(p[..|p| - 1]) == multiset(Without(q, j))
  {
    var n := |p| - 1;
    WithoutOne(p, n);
    WithoutOne(q, j);
    assert Without(p, n) == p[..n];
    CancelOne(multiset(p[..n]), multiset(Without(q, j)), p[n]);
  }

  lemma {:induction false} SameTotal(rows: seq<Installment>, p: seq<Payment>, q: seq<Payment>)
    requires DayOrdered(p) && DayOrdered(q) && multiset(p) == multiset(q)
    ensures ReplayTotal(rows, p) == ReplayTotal(rows, q)
    decreases |p|
  {
    assert |p| == |multiset(p)| == |multiset(q)| == |q|;
    if p != [] {
      var j := FindLast(p, q);
      SameWithout(p, q, j);
      WithoutStaysOrdered(q, j);
      SameTotal(rows, p[..|p| - 1], Without(q, j));
      SameLastStep(rows, p, q, j, ReplayTotal(rows, p), ReplayTotal(rows, q));
    }
  }

  /** The rebuilt rows do not depend on how payments of one date are ordered. */
  lemma OrderIndependent(rows: seq<Installment>, p: seq<Payment>, q: seq<Payment>)
    requires DueInOrder(rows) && DayOrdered(p) && DayOrdered(q) && multiset(p) == multiset(q)
    ensures ReplayPaid(rows, p) == ReplayPaid(rows, q)
  {
    SameTotal(rows, p, q);
    ReplayIsWaterfall(rows, p);
    ReplayIsWaterfall(rows, q);
  }

  lemma SameLastStep(rows: seq<Installment>, p: seq<Payment>, q: seq<Payment>, j: nat, t: int, u: int)
    requires p != [] && j < |q| && q[j] == p[|p| - 1] && forall y | y in q[j + 1..] :: y.day == q[j].day
    requires ReplayTotal(rows, p[..|p| - 1]) == ReplayTotal(rows, Without(q, j))
    requires t == ReplayTotal(rows, p) && u == ReplayTotal(rows, q)
    ensures t == u
  {
    WithoutOne(q, j);
    TakenLast(rows, q[..j], q[j], q[j + 1..]);
  }

  lemma DropOne(rows: seq<Installment>, before: seq<Payment>, x: Payment, after: seq<Payment>)
    ensures ReplayTotal(rows, before + after) <= ReplayTotal(rows, before + ([x] + after))
  {
    var t := ReplayTotal(rows, before);
    ReplayConcat(rows, 0, before, after);
    ReplayConcat(rows, 0, before, [x] + after);
    ReplayConcat(rows, t, [x], after);
    assert [x][..0] == [];
    ReplayFromMonotone(rows, t, ReplayFrom(rows, t, [x]), after);
  }

  /** Dropping one payment lowers every row's paid amount or leaves it equal. */
  lemma DropLowers(rows: seq<Installment>, p: seq<Payment>, q: seq<Payment>, x: Payment)
    requires DueInOrder(rows) && DayOrdered(p) && DayOrdered(q)
    requires multiset(p) == multiset(q) + multiset{x}
    ensures forall i | 0 <= i < |rows| :: ReplayPaid(rows, q)[i] <= ReplayPaid(rows, p)[i]
  {
    assert x in multiset(p);
    var j :| 0 <= j < |p| && p[j] == x;
    WithoutOne(p, j);
    WithoutStaysOrdered(p, j);
    CancelOne(multiset(Without(p, j)), multiset(q), x);
    SameTotal(rows, Without(p, j), q);
    DropOne(rows, p[..j], x, p[j + 1..]);
    ReplayIsWaterfall(rows, p);
    ReplayIsWaterfall(rows, q);
    WaterfallMonotone(rows, ReplayTotal(rows, q), ReplayTotal(rows, p));
  }

  function TotalCash(payments: seq<Payment>): (c: nat) {
    if payments == [] then 0
    else TotalCash(payments[..|payments| - 1]) + payments[|payments| - 1].cash
  }

  /** Over payments dated after `day`, starting at most at that day's dues, the replay adds
      all the cash up to a ceiling: where a fully paid-up schedule would have ended. */
  lemma {:induction false} LatePayments(rows: seq<Installment>, day: int, start: int, late: seq<Payment>)
    requires DayOrdered(late) && LaterThan(late, day)
    requires start <= DueBy(rows, day)
    ensures var ceiling := ReplayFrom(rows, DueBy(rows, day), late);
      && DueBy(rows, day) <= ceiling <= DueBy(rows, day) + TotalCash(late)
      && (late != [] ==> ceiling <= DueBy(rows, late[|late| - 1].day))
      && ReplayFrom(rows, start, late) == Min(start + TotalCash(late), ceiling)
  {
    if late != [] {
      var init, last := late[..|late| - 1], late[|late| - 1];
      LatePayments(rows, day, start, init);
      if init == [] {
        DueByMonotone(rows, day, last.day);
      } else {
        DueByMonotone(rows, init[|init| - 1].day, last.day);
      }
    }
  }

  lemma EarlyTotal(rows: seq<Installment>, early: seq<Payment>, day: int)
    requires DayOrdered(early) && NoLaterThan(early, day)
    ensures ReplayTotal(rows, early) <= DueBy(rows, day)
  {
    if early != [] {
      OrderedReplayStep(rows, early);
      DueByMonotone(rows, early[|early| - 1].day, day);
    }
  }

  lemma LateAfter(rows: seq<Installment>, base: seq<Payment>, day: int, late: seq<Payment>)
    requires DayOrdered(late) && LaterThan(late, day)
    requires ReplayTotal(rows, base) <= DueBy(rows, day)
    ensures var m := ReplayFrom(rows, DueBy(rows, day), late);
      && DueBy(rows, day) <= m <= DueBy(rows, day) + TotalCash(late)
      && ReplayTotal(rows, base + late) == Min(ReplayTotal(rows, base) + TotalCash(late), m)
  {
    ReplayConcat(rows, 0, base, late);
    LatePayments(rows, day, ReplayTotal(rows, base), late);
  }

  lemma WithBackdated(rows: seq<Installment>, early: seq<Payment>, late: seq<Payment>, x: Payment)
    requires ReplayTotal(rows, early) <= DueBy(rows, x.day)
    requires DayOrdered(late) && LaterThan(late, x.day)
    ensures ReplayTotal(rows, early + [x] + late)
         == Min(Min(ReplayTotal(rows, early) + x.cash, DueBy(rows, x.day)) + TotalCash(late),
                ReplayFrom(rows, DueBy(rows, x.day), late))
  {
    LateAfter(rows, early + [x], x.day, late);
  }

  lemma SameOutcome(a: int, s: nat, c: int, d: int, m: int, t: int, replay: int)
    requires c > 0 && a <= d <= m <= d + s
    requires t == Min(a + s, m) && replay == Min(Min(a + c, d) + s, m)
    ensures Advance(t, c, d) == replay <==> t + c <= d || m == Max(t, d)
  {
  }

  /** A payment received with a date earlier than payments already recorded: the forward
      pass at recording time and the date-ordered replay agree exactly when the payment
      still fits under the dues of its own date, or when even a schedule fully paid up on
      that date would have ended no higher. */
  lemma BackdatedPayment(rows: seq<Installment>, early: seq<Payment>, late: seq<Payment>, x: Payment)
    requires x.cash > 0
    requires DayOrdered(early) && NoLaterThan(early, x.day)
    requires DayOrdered(late) && LaterThan(late, x.day)
    ensures var t, d := ReplayTotal(rows, early + late), DueBy(rows, x.day);
      Advance(t, x.cash, d) == ReplayTotal(rows, early + [x] + late)
      <==> t + x.cash <= d || ReplayFrom(rows, d, late) == Max(t, d)
  {
    EarlyTotal(rows, early, x.day);
    BackdatedNumbers(rows, early, late, x, DueBy(rows, x.day), ReplayFrom(rows, DueBy(rows, x.day), late),
                     ReplayTotal(rows, early + late), ReplayTotal(rows, early + [x] + late));
  }

  lemma BackdatedNumbers(rows: seq<Installment>, early: seq<Payment>, late: seq<Payment>, x: Payment,
                         d: int, m: int, t: int, r: int)
    requires x.cash > 0 && ReplayTotal(rows, early) <= d
    requires DayOrdered(late) && LaterThan(late, x.day)
    requires d == DueBy(rows, x.day) && m == ReplayFrom(rows, d, late)
    requires t == ReplayTotal(rows, early + late) && r == ReplayTotal(rows, early + [x] + late)
    ensures Advance(t, x.cash, d) == r <==> t + x.cash <= d || m == Max(t, d)
  {
    var a := ReplayTotal(rows, early);
    BackdatedTotals(rows, early, late, x, a, d, m, t, r);
    SameOutcome(a, TotalCash(late), x.cash, d, m, t, r);
  }

  lemma BackdatedTotals(rows: seq<Installment>, early: seq<Payment>, late: seq<Payment>, x: Payment,
                        a: int, d: int, m: int, t: int, r: int)
    requires a == ReplayTotal(rows, early) <= d == DueBy(rows, x.day)
    requires DayOrdered(late) && LaterThan(late, x.day)
    requires m == ReplayFrom(rows, d, late) && t == ReplayTotal(rows, early + late)
    requires r == ReplayTotal(rows, early + [x] + late)
    ensures d <= m <= d + TotalCash(late)
    ensures t == Min(a + TotalCash(late), m) && r == Min(Min(a + x.cash, d) + TotalCash(late), m)
  {
    LateAfter(rows, early, x.day, late);
    WithBackdated(rows, early, late, x);
  }

  const TWO_ROWS := [Installment(5, 0, 50), Installment(10, 0, 50)]

  /** A schedule and two payments on which the two disagree. */
  lemma BackdatedPasses()
    ensures var ten, five := Payment(10, 30), Payment(5, 50);
      Pass(TWO_ROWS, ReplayPaid(TWO_ROWS, [ten]), five.day, five.cash) == [50, 0]
      && ReplayPaid(TWO_ROWS, [five, ten]) == [50, 30]
  {
    var rows := TWO_ROWS;
    var ten, five := Payment(10, 30), Payment(5, 50);
    assert [ten][..0] == [] && [five, ten][..1] == [five] && [five][..0] == [];
    ReplayIsWaterfall(rows, [ten]);
    ReplayIsWaterfall(rows, [five, ten]);
    PassAdvances(rows, 30, 5, 50);
    assert rows[1..] == [Installment(10, 0, 50)];
    assert DueBy(rows, 5) == 50 && DueBy(rows, 10) == 100;
    assert ReplayTotal(rows, []) == 0;
    assert ReplayTotal(rows, [ten]) == 30;
    assert ReplayTotal(rows, [five]) == 50;
    assert ReplayTotal(rows, [five, ten]) == 80;
  }
}
