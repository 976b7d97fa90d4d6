/** The ledger as closed-period rollups see it: per-account totals of a month, rebuilt from
    the append-only postings, and the trial balance assembled from rollups plus a live scan
    of everything they do not cover. */
module Rollups {
  import opened Calendar

  datatype Line = Line(account: nat, debit: bool, amount: nat)

  datatype Entry = Entry(at: nat, lines: seq<Line>)

  datatype Totals = Totals(debits: nat, credits: nat)

  /** A row of accounting_periods with its rollup rows; `marked` is the rollup_at column. */
  datatype Period = Period(month: nat, marked: bool, rows: map<nat, Totals>)

  /** What a posting's lines put on one side of an account. */
  function LineTotal(lines: seq<Line>, account: nat, debit: bool): (t: nat) {
    if lines == [] then 0
    else
      var l := lines[|lines| - 1];
      LineTotal(lines[..|lines| - 1], account, debit) + if l.account == account && l.debit == debit then l.amount else 0
  }

  /** One side of one account over the postings a query keeps. */
  function Sum(ledger: seq<Entry>, account: nat, debit: bool, keep: Entry -> bool): (t: nat) {
    if ledger == [] then 0
    else
      var last := ledger[|ledger| - 1];
      Sum(ledger[..|ledger| - 1], account, debit, keep)
      + if keep(last) then LineTotal(last.lines, account, debit) else 0
  }

  predicate InMonth(p: Entry, month: nat) { Within(DayOf(p.at), month) }

  function Dated(month: nat): Entry -> bool { (x: Entry) => InMonth(x, month) }

  function MonthTotal(ledger: seq<Entry>, month: nat, account: nat, debit: bool): nat {
    Sum(ledger, account, debit, Dated(month))
  }

  function ActiveAccounts(ledger: seq<Entry>, month: nat): set<nat> {
    set p, l | p in ledger && InMonth(p, month) && l in p.lines :: l.account
  }

  /** The rows a rollup stores: one per account with activity in the month. */
  function Reconstruct(ledger: seq<Entry>, month: nat): (rows: map<nat, Totals>) {
    map account | account in ActiveAccounts(ledger, month) ::
      Totals(MonthTotal(ledger, month, account, true), MonthTotal(ledger, month, account, false))
  }

  /** The postings dated in the month, in ledger order. */
  function OfMonth(ledger: seq<Entry>, month: nat): (kept: seq<Entry>) {
    if ledger == [] then []
    else
      var last := ledger[|ledger| - 1];
      OfMonth(ledger[..|ledger| - 1], month) + if InMonth(last, month) then [last] else []
  }

  // ---------------------------------------------------------------------------
  // The trial balance
  // ---------------------------------------------------------------------------

  /** A rolled period takes part only when its last day is over at `asOf`. */
  predicate Covers(p: Period, asOf: nat) { p.marked && DayOf(asOf) > MonthBounds(p.month).1 }

  predicate Covered(periods: seq<Period>, asOf: nat, x: Entry) {
    exists i | 0 <= i < |periods| :: Covers(periods[i], asOf) && InMonth(x, periods[i].month)
  }

  function UpTo(asOf: nat): Entry -> bool { (x: Entry) => x.at <= asOf }

  function Uncovered(periods: seq<Period>, asOf: nat): Entry -> bool {
    (x: Entry) => x.at <= asOf && !Covered(periods, asOf, x)
  }

  function FullScan(ledger: seq<Entry>, asOf: nat, account: nat, debit: bool): nat {
    Sum(ledger, account, debit, UpTo(asOf))
  }

  function LiveScan(ledger: seq<Entry>, periods: seq<Period>, asOf: nat, account: nat, debit: bool): nat {
    Sum(ledger, account, debit, Uncovered(periods, asOf))
  }

  function Row(p: Period, account: nat, debit: bool): nat {
    if account !in p.rows then 0 else if debit then p.rows[account].debits else p.rows[account].credits
  }

  function Rolled(periods: seq<Period>, asOf: nat, account: nat, debit: bool): (t: nat) {
    if periods == [] then 0
    else
      var last := periods[|periods| - 1];
      Rolled(periods[..|periods| - 1], asOf, account, debit)
      + if Covers(last, asOf) then Row(last, account, debit) else 0
  }

  function TrialBalance(ledger: seq<Entry>, periods: seq<Period>, asOf: nat, account: nat, debit: bool): nat {
    Rolled(periods, asOf, account, debit) + LiveScan(ledger, periods, asOf, account, debit)
  }

  // ---------------------------------------------------------------------------
  // Exactness
  // ---------------------------------------------------------------------------

  ghost predicate Distinct(periods: seq<Period>) {
    forall i, j | 0 <= i < j < |periods| :: periods[i].month != periods[j].month
  }

  ghost predicate Faithful(p: Period, ledger: seq<Entry>) {
    p.marked ==> p.rows == Reconstruct(ledger, p.month)
  }

  ghost predicate AllFaithful(periods: seq<Period>, ledger: seq<Entry>) {
    forall i | 0 <= i < |periods| :: Faithful(periods[i], ledger)
  }

  lemma {:induction false} SumPartition(ledger: seq<Entry>, account: nat, debit: bool, whole: Entry -> bool,
                                        left: Entry -> bool, right: Entry -> bool)
    requires forall x | x in ledger :: (whole(x) <==> left(x) || right(x)) && !(left(x) && right(x))
    ensures Sum(ledger, account, debit, whole) == Sum(ledger, account, debit, left) + Sum(ledger, account, debit, right)
  {
    if ledger != [] {
      var last := ledger[|ledger| - 1];
      var init := ledger[..|ledger| - 1];
      assert last in ledger && (whole(last) <==> left(last) || right(last)) && !(left(last) && right(last));
      SumPartition(init, account, debit, whole, left, right);
    }
  }

  lemma {:induction false} SumAgrees(ledger: seq<Entry>, account: nat, debit: bool, a: Entry -> bool, b: Entry -> bool)
    requires forall x | x in ledger :: a(x) == b(x)
    ensures Sum(ledger, account, debit, a) == Sum(ledger, account, debit, b)
  {
    if ledger != [] {
      assert ledger[|ledger| - 1] in ledger;
      SumAgrees(ledger[..|ledger| - 1], account, debit, a, b);
    }
  }

  lemma {:induction false} NoLines(lines: seq<Line>, account: nat, debit: bool)
    requires forall l | l in lines :: l.account != account
    ensures LineTotal(lines, account, debit) == 0
  {
    if lines != [] {
      assert lines[|lines| - 1] in lines;
      NoLines(lines[..|lines| - 1], account, debit);
    }
  }

  /** An account without activity in the month has no row and nothing to add. */
  lemma {:induction false} Inactive(ledger: seq<Entry>, month: nat, account: nat, debit: bool)
    requires account !in ActiveAccounts(ledger, month)
    ensures MonthTotal(ledger, month, account, debit) == 0
  {
    if ledger != [] {
      var init, last := ledger[..|ledger| - 1], ledger[|ledger| - 1];
      assert last in ledger;
      forall x | x in init ensures x in ledger {
      }
      Inactive(init, month, account, debit);
      if InMonth(last, month) {
        NoLines(last.lines, account, debit);
      }
    }
  }

  lemma FaithfulRow(p: Period, ledger: seq<Entry>, account: nat, debit: bool)
    requires p.marked && Faithful(p, ledger)
    ensures Row(p, account, debit) == MonthTotal(ledger, p.month, account, debit)
  {
    if account !in ActiveAccounts(ledger, p.month) {
      Inactive(ledger, p.month, account, debit);
    }
  }

  /** Taking one more period into account moves exactly its own month out of the live scan. */
  lemma OneMorePeriod(ledger: seq<Entry>, periods: seq<Period>, asOf: nat, account: nat, debit: bool)
    requires periods != [] && Distinct(periods)
    ensures var n := |periods| - 1;
      LiveScan(ledger, periods[..n], asOf, account, debit)
      == if Covers(periods[n], asOf)
         then LiveScan(ledger, periods, asOf, account, debit) + MonthTotal(ledger, periods[n].month, account, debit)
         else LiveScan(ledger, periods, asOf, account, debit)
  {
    var n := |periods| - 1;
    var init, last := periods[..n], periods[n];
    forall x | x in ledger
      ensures Covered(periods, asOf, x) <==> Covered(init, asOf, x) || (Covers(last, asOf) && InMonth(x, last.month))
    {
      CoveredSplits(init, last, asOf, x);
      assert init + [last] == periods;
    }
    if Covers(last, asOf) {
      forall x | x in ledger && InMonth(x, last.month) ensures x.at <= asOf && !Covered(init, asOf, x) {
        NotCoveredTwice(periods, asOf, x);
      }
      SumPartition(ledger, account, debit, Uncovered(init, asOf), Uncovered(periods, asOf), Dated(last.month));
    } else {
      SumAgrees(ledger, account, debit, Uncovered(init, asOf), Uncovered(periods, asOf));
    }
  }

  lemma CoveredSplits(init: seq<Period>, last: Period, asOf: nat, x: Entry)
    ensures Covered(init + [last], asOf, x) <==>
              (Covered(init, asOf, x) || (Covers(last, asOf) && InMonth(x, last.month)))
  {
    var periods := init + [last];
    assert periods[|init|] == last;
    forall i | 0 <= i < |init| ensures periods[i] == init[i] {
    }
  }

  lemma NotCoveredTwice(periods: seq<Period>, asOf: nat, x: Entry)
    requires periods != [] && Distinct(periods) && InMonth(x, periods[|periods| - 1].month)
    ensures !Covered(periods[..|periods| - 1], asOf, x)
  {
    var n := |periods| - 1;
    forall i | 0 <= i < n ensures !InMonth(x, periods[..n][i].month) {
      assert periods[i].month != periods[n].month;
      MonthIsUnique(DayOf(x.at), periods[i].month);
      MonthIsUnique(DayOf(x.at), periods[n].month);
    }
  }

  /** The trial balance assembled from faithful rollups and the live remainder equals the
      full ledger scan, for every account and every instant, past or present. */
  lemma {:induction false} TrialBalanceIsExact(ledger: seq<Entry>, periods: seq<Period>, asOf: nat, account: nat,
                                               debit: bool)
    requires Distinct(periods) && AllFaithful(periods, ledger)
    ensures TrialBalance(ledger, periods, asOf, account, debit) == FullScan(ledger, asOf, account, debit)
  {
    if periods == [] {
      SumAgrees(ledger, account, debit, Uncovered([], asOf), UpTo(asOf));
    } else {
      var n := |periods| - 1;
      TrialBalanceIsExact(ledger, periods[..n], asOf, account, debit);
      OneMorePeriod(ledger, periods, asOf, account, debit);
      assert Faithful(periods[n], ledger);
      if Covers(periods[n], asOf) {
        FaithfulRow(periods[n], ledger, account, debit);
      }
    }
  }

  // ---------------------------------------------------------------------------
  // What the figures mean
  // ---------------------------------------------------------------------------

  /** A line of a posting dated no later than `asOf` adds its amount to its own account and
      side, and nothing anywhere else; an empty ledger and a posting without lines add nothing. */
  lemma LineAdds(ledger: seq<Entry>, at: nat, lines: seq<Line>, l: Line, asOf: nat, account: nat, debit: bool)
    ensures FullScan(ledger + [Entry(at, lines + [l])], asOf, account, debit)
         == FullScan(ledger + [Entry(at, lines)], asOf, account, debit)
            + if at <= asOf && l.account == account && l.debit == debit then l.amount else 0
    ensures FullScan(ledger + [Entry(at, [])], asOf, account, debit) == FullScan(ledger, asOf, account, debit)
    ensures FullScan([], asOf, account, debit) == 0
  {
    assert (lines + [l])[..|lines|] == lines;
    assert (ledger + [Entry(at, lines + [l])])[..|ledger|] == ledger;
    assert (ledger + [Entry(at, lines)])[..|ledger|] == ledger;
    assert (ledger + [Entry(at, [])])[..|ledger|] == ledger;
  }

  /** So a posting of one line raises the scan by exactly that line. */
  lemma PostingAdds(ledger: seq<Entry>, at: nat, l: Line, asOf: nat, account: nat, debit: bool)
    ensures FullScan(ledger + [Entry(at, [l])], asOf, account, debit)
         == FullScan(ledger, asOf, account, debit)
            + if at <= asOf && l.account == account && l.debit == debit then l.amount else 0
  {
    LineAdds(ledger, at, [], l, asOf, account, debit);
    assert [] + [l] == [l];
  }

  /** The same for the trial balance, as long as no rolled month is posted into. */
  lemma PostingRaisesTrialBalance(ledger: seq<Entry>, periods: seq<Period>, at: nat, lines: seq<Line>, l: Line,
                                  asOf: nat, account: nat, debit: bool)
    requires Distinct(periods) && AllFaithful(periods, ledger)
    requires AllFaithful(periods, ledger + [Entry(at, lines)])
    requires AllFaithful(periods, ledger + [Entry(at, lines + [l])])
    ensures TrialBalance(ledger + [Entry(at, lines + [l])], periods, asOf, account, debit)
         == TrialBalance(ledger + [Entry(at, lines)], periods, asOf, account, debit)
            + if at <= asOf && l.account == account && l.debit == debit then l.amount else 0
    ensures lines == [] ==>
              TrialBalance(ledger + [Entry(at, lines)], periods, asOf, account, debit)
              == TrialBalance(ledger, periods, asOf, account, debit)
  {
    LineAdds(ledger, at, lines, l, asOf, account, debit);
    TrialBalanceIsExact(ledger, periods, asOf, account, debit);
    TrialBalanceIsExact(ledger + [Entry(at, lines)], periods, asOf, account, debit);
    TrialBalanceIsExact(ledger + [Entry(at, lines + [l])], periods, asOf, account, debit);
  }
}
