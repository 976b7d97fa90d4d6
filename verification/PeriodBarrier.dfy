/** Posters, closers, backfillers and row fabricators of one tenant, interleaved statement
    by statement. A poster holds the tenant's advisory lock in shared mode from before its
    first check to its commit; a closer holds it exclusively; a backfill holds the period row
    FOR UPDATE; a direct insert of a rollup row holds it FOR SHARE. Every statement reads
    what is committed plus its own transaction's rows. */
module PeriodBarrier {
  import opened Options
  import opened Calendar
  import opened Rollups
  import Runs

  const CLOCK_SKEW: nat := 300_000_000

  datatype Phase =
    | Idle
    | Posting(own: seq<Entry>, checked: Option<nat>, locked: bool)
    | Closing(month: nat, rows: Option<map<nat, Totals>>)
    | Filling(period: nat, rows: Option<map<nat, Totals>>, verified: bool)
    | Fabricating(period: nat, account: nat, totals: Totals)

  datatype State = State(now: nat, ledger: seq<Entry>, periods: seq<Period>, phases: map<nat, Phase>)

  datatype Event =
    | Tick
    | BeginPost(p: nat)                             // shared lock: the service, or the trigger itself
    | BeginUnlocked(p: nat)                         // the older trigger, which took no lock
    | CheckOpen(p: nat, at: nat)                    // the service's own check
    | Insert(p: nat, entry: Entry)          // the row, with the trigger's check
    | BeginClose(p: nat, month: nat)
    | RollUp(p: nat)
    | BeginFill(p: nat, period: nat)
    | FillRows(p: nat)
    | Verify(p: nat)
    | Fabricate(p: nat, period: nat, account: nat, totals: Totals)
    | Commit(p: nat)
    | Abort(p: nat)

  function PhaseOf(s: State, p: nat): Phase { if p in s.phases then s.phases[p] else Idle }

  function Move(s: State, p: nat, phase: Phase): State { s.(phases := s.phases[p := phase]) }

  /** The closed period a date falls in, if any. */
  predicate InClosed(periods: seq<Period>, at: nat) {
    exists i | 0 <= i < |periods| :: Within(DayOf(at), periods[i].month)
  }

  predicate Claimed(periods: seq<Period>, month: nat) {
    exists i | 0 <= i < |periods| :: periods[i].month == month
  }

  predicate SharedFree(s: State, p: nat) {
    forall q | q in s.phases && q != p :: !s.phases[q].Closing?
  }

  predicate ExclusiveFree(s: State, p: nat) {
    forall q | q in s.phases && q != p :: !s.phases[q].Closing? && !(s.phases[q].Posting? && s.phases[q].locked)
  }

  /** FOR UPDATE on a period row: nobody else holds it in any mode. */
  predicate RowFree(s: State, p: nat, period: nat) {
    forall q | q in s.phases && q != p ::
      && !(s.phases[q].Filling? && s.phases[q].period == period)
      && !(s.phases[q].Fabricating? && s.phases[q].period == period)
  }

  predicate RowShareable(s: State, p: nat, period: nat) {
    forall q | q in s.phases && q != p :: !(s.phases[q].Filling? && s.phases[q].period == period)
  }

  /** INSERT ... ON CONFLICT DO NOTHING: rows already there stay. */
  function Merge(computed: map<nat, Totals>, stored: map<nat, Totals>): map<nat, Totals> { computed + stored }

  function CommitPhase(s: State, p: nat): State {
    var phase := PhaseOf(s, p);
    var ended := Move(s, p, Idle);
    match phase
    case Posting(own, _, _) => ended.(ledger := s.ledger + own)
    case Closing(month, Some(rows)) => ended.(periods := s.periods + [Period(month, true, rows)])
    case Filling(i, Some(rows), true) =>
      if i >= |s.periods| then ended
      else ended.(periods := s.periods[i := s.periods[i].(marked := true, rows := Merge(rows, s.periods[i].rows))])
    case Fabricating(i, account, totals) =>
      if i >= |s.periods| || account in s.periods[i].rows then ended
      else ended.(periods := s.periods[i := s.periods[i].(rows := s.periods[i].rows[account := totals])])
    case _ => ended
  }

  function StepPoster(s: State, e: Event): State
    requires e.CheckOpen? || e.Insert?
  {
    var phase := PhaseOf(s, e.p);
    if !phase.Posting? then s
    else
      match e
      case CheckOpen(p, at) =>
        if at > s.now + CLOCK_SKEW || InClosed(s.periods, at) then Move(s, p, Idle)
        else Move(s, p, Posting(phase.own, Some(at), phase.locked))
      case Insert(p, entry) =>
        if InClosed(s.periods, entry.at) then Move(s, p, Idle)
        else Move(s, p, Posting(phase.own + [entry], None, phase.locked))
  }

  function StepKeeper(s: State, e: Event): State
    requires e.BeginClose? || e.RollUp? || e.BeginFill? || e.FillRows? || e.Verify? || e.Fabricate?
  {
    var phase := PhaseOf(s, e.p);
    match e
    case BeginClose(p, month) =>
      if !phase.Idle? || MonthBounds(month).1 >= DayOf(s.now) || !ExclusiveFree(s, p) then s
      else Move(s, p, Closing(month, None))
    case RollUp(p) =>
      if !(phase.Closing? && phase.rows == None) then s
      else if Claimed(s.periods, phase.month) then Move(s, p, Idle)
      else Move(s, p, Closing(phase.month, Some(Reconstruct(s.ledger, phase.month))))
    case BeginFill(p, i) =>
      if !phase.Idle? || i >= |s.periods| || s.periods[i].marked || !RowFree(s, p, i) then s
      else Move(s, p, Filling(i, None, false))
    case FillRows(p) =>
      if !(phase.Filling? && phase.rows == None && phase.period < |s.periods|) then s
      else Move(s, p, Filling(phase.period, Some(Reconstruct(s.ledger, s.periods[phase.period].month)), false))
    case Verify(p) =>
      if !(phase.Filling? && phase.rows.Some? && phase.period < |s.periods|) then s
      else if Merge(phase.rows.value, s.periods[phase.period].rows) != phase.rows.value then Move(s, p, Idle)
      else Move(s, p, Filling(phase.period, phase.rows, true))
    case Fabricate(p, i, account, totals) =>
      if !phase.Idle? || i >= |s.periods| || !RowShareable(s, p, i) then s
      else if s.periods[i].marked || account in s.periods[i].rows then s
      else Move(s, p, Fabricating(i, account, totals))
  }

  /** One statement; an event that is not enabled waits, a refused one ends its transaction. */
  function Step(s: State, e: Event): State {
    match e
    case Tick => s.(now := s.now + 1)
    case BeginPost(p) => if PhaseOf(s, p).Idle? && SharedFree(s, p) then Move(s, p, Posting([], None, true)) else s
    case BeginUnlocked(p) => if PhaseOf(s, p).Idle? then Move(s, p, Posting([], None, false)) else s
    case CheckOpen(_, _) => StepPoster(s, e)
    case Insert(_, _) => StepPoster(s, e)
    case Commit(p) => CommitPhase(s, p)
    case Abort(p) => Move(s, p, Idle)
    case _ => StepKeeper(s, e)
  }

  function Run(s: State, events: seq<Event>): State { Runs.Run(Step, s, events) }

  ghost predicate Barriered(events: seq<Event>) {
    forall i | 0 <= i < |events| :: !events[i].BeginUnlocked?
  }

  // ---------------------------------------------------------------------------
  // The invariant
  // ---------------------------------------------------------------------------

  ghost predicate AllOpen(periods: seq<Period>, own: seq<Entry>) {
    forall i | 0 <= i < |own| :: !InClosed(periods, own[i].at)
  }

  ghost predicate PhaseOk(s: State, p: nat, phase: Phase) {
    match phase
    case Idle => true
    case Posting(own, checked, locked) =>
      locked && SharedFree(s, p) && AllOpen(s.periods, own) && (checked.Some? ==> !InClosed(s.periods, checked.value))
    case Closing(month, rows) =>
      && ExclusiveFree(s, p) && MonthBounds(month).1 < DayOf(s.now)
      && (rows.Some? ==> !Claimed(s.periods, month) && rows.value == Reconstruct(s.ledger, month))
    case Filling(i, rows, verified) =>
      && i < |s.periods| && !s.periods[i].marked && RowFree(s, p, i)
      && (rows.Some? ==> rows.value == Reconstruct(s.ledger, s.periods[i].month))
      && (verified ==> rows.Some? && Merge(rows.value, s.periods[i].rows) == rows.value)
    case Fabricating(i, account, totals) => i < |s.periods| && !s.periods[i].marked && RowShareable(s, p, i)
  }

  ghost predicate Elapsed(s: State) {
    forall i | 0 <= i < |s.periods| :: MonthBounds(s.periods[i].month).1 < DayOf(s.now)
  }

  ghost predicate PhasesOk(s: State) {
    forall p | p in s.phases :: PhaseOk(s, p, s.phases[p])
  }

  ghost predicate Safe(s: State) {
    Distinct(s.periods) && AllFaithful(s.periods, s.ledger) && Elapsed(s) && PhasesOk(s)
  }

  // ---------------------------------------------------------------------------
  // Postings outside a month
  // ---------------------------------------------------------------------------

  ghost predicate NoneIn(own: seq<Entry>, month: nat) {
    forall i | 0 <= i < |own| :: !InMonth(own[i], month)
  }

  lemma ReconstructOutside(ledger: seq<Entry>, x: Entry, month: nat)
    requires !InMonth(x, month)
    ensures Reconstruct(ledger + [x], month) == Reconstruct(ledger, month)
    ensures OfMonth(ledger + [x], month) == OfMonth(ledger, month)
  {
    assert (ledger + [x])[..|ledger|] == ledger;
  }

  /** Entries dated outside a month change neither its entries nor its reconstruction. */
  lemma {:induction false} MonthUntouched(ledger: seq<Entry>, own: seq<Entry>, month: nat)
    requires NoneIn(own, month)
    ensures Reconstruct(ledger + own, month) == Reconstruct(ledger, month)
    ensures OfMonth(ledger + own, month) == OfMonth(ledger, month)
  {
    if own == [] {
      assert ledger + own == ledger;
    } else {
      var n := |own| - 1;
      MonthUntouched(ledger, own[..n], month);
      ReconstructOutside(ledger + own[..n], own[n], month);
      assert ledger + own == ledger + own[..n] + [own[n]];
    }
  }

  // ---------------------------------------------------------------------------
  // Preservation
  // ---------------------------------------------------------------------------

  /** Entering a phase whose own conditions hold disturbs no other transaction. */
  lemma MoveKeeps(s: State, p: nat, phase: Phase)
    requires Safe(s) && PhaseOk(s, p, phase)
    ensures Safe(Move(s, p, phase))
  {
    var after := Move(s, p, phase);
    forall q | q in after.phases ensures PhaseOk(after, q, after.phases[q]) {
      if q != p {
        assert PhaseOk(s, q, s.phases[q]);
      }
    }
  }

  lemma PosterKeeps(s: State, e: Event)
    requires Safe(s) && (e.CheckOpen? || e.Insert?)
    ensures Safe(StepPoster(s, e))
  {
    var phase := PhaseOf(s, e.p);
    if phase.Posting? {
      assert PhaseOk(s, e.p, phase);
      MoveKeeps(s, e.p, Idle);
      if e.CheckOpen? && !InClosed(s.periods, e.at) {
        MoveKeeps(s, e.p, Posting(phase.own, Some(e.at), phase.locked));
      } else if e.Insert? && !InClosed(s.periods, e.entry.at) {
        MoveKeeps(s, e.p, Posting(phase.own + [e.entry], None, phase.locked));
      }
    }
  }

  lemma KeeperKeeps(s: State, e: Event)
    requires Safe(s)
    requires e.BeginClose? || e.RollUp? || e.BeginFill? || e.FillRows? || e.Verify? || e.Fabricate?
    ensures Safe(StepKeeper(s, e))
  {
    var after := StepKeeper(s, e);
    assert PhaseOf(s, e.p) == Idle || PhaseOk(s, e.p, PhaseOf(s, e.p));
    if after != s {
      MoveKeeps(s, e.p, PhaseOf(after, e.p));
    }
  }

  /** A poster's commit lands only in months nobody has closed or is closing. */
  lemma PostCommitKeeps(s: State, p: nat)
    requires Safe(s) && PhaseOf(s, p).Posting?
    ensures Safe(CommitPhase(s, p))
  {
    var after := CommitPhase(s, p);
    var own := PhaseOf(s, p).own;
    assert PhaseOk(s, p, s.phases[p]);
    forall i | 0 <= i < |s.periods|
      ensures Reconstruct(after.ledger, s.periods[i].month) == Reconstruct(s.ledger, s.periods[i].month)
    {
      MonthUntouched(s.ledger, own, s.periods[i].month);
    }
    forall i | 0 <= i < |s.periods| ensures Faithful(after.periods[i], after.ledger) {
      assert Faithful(s.periods[i], s.ledger);
    }
    forall q | q in after.phases ensures PhaseOk(after, q, after.phases[q]) {
      if q != p {
        assert PhaseOk(s, q, s.phases[q]);
      }
    }
  }

  lemma CloseCommitKeeps(s: State, p: nat)
    requires Safe(s) && PhaseOf(s, p).Closing? && PhaseOf(s, p).rows.Some?
    ensures Safe(CommitPhase(s, p))
  {
    var after := CommitPhase(s, p);
    assert PhaseOk(s, p, s.phases[p]);
    forall i | 0 <= i < |after.periods| ensures Faithful(after.periods[i], after.ledger) {
      if i < |s.periods| {
        assert Faithful(s.periods[i], s.ledger);
      }
    }
    forall q | q in after.phases ensures PhaseOk(after, q, after.phases[q]) {
      if q != p {
        assert PhaseOk(s, q, s.phases[q]);
      }
    }
  }

  /** Replacing one unmarked period row, its month kept, by a faithful one. */
  lemma RowCommitKeeps(s: State, p: nat, i: nat, row: Period)
    requires Safe(s) && i < |s.periods| && !s.periods[i].marked && row.month == s.periods[i].month
    requires Faithful(row, s.ledger) && RowShareable(s, p, i) && (row.marked ==> RowFree(s, p, i))
    ensures Safe(Move(s, p, Idle).(periods := s.periods[i := row]))
  {
    var after := Move(s, p, Idle).(periods := s.periods[i := row]);
    forall at | InClosed(after.periods, at) ensures InClosed(s.periods, at) {
      var k :| 0 <= k < |after.periods| && Within(DayOf(at), after.periods[k].month);
      assert after.periods[k].month == s.periods[k].month;
    }
    forall j | 0 <= j < |after.periods| ensures Faithful(after.periods[j], after.ledger) {
      assert j == i || Faithful(s.periods[j], s.ledger);
    }
    forall q | q in after.phases ensures PhaseOk(after, q, after.phases[q]) {
      if q != p {
        assert PhaseOk(s, q, s.phases[q]);
      }
    }
  }

  lemma CommitKeeps(s: State, p: nat)
    requires Safe(s)
    ensures Safe(CommitPhase(s, p))
  {
    var phase := PhaseOf(s, p);
    assert phase == Idle || PhaseOk(s, p, phase);
    match phase
    case Posting(_, _, _) => PostCommitKeeps(s, p);
    case Closing(_, Some(_)) => CloseCommitKeeps(s, p);
    case Filling(i, Some(rows), true) =>
      RowCommitKeeps(s, p, i, s.periods[i].(marked := true, rows := Merge(rows, s.periods[i].rows)));
    case Fabricating(i, account, totals) =>
      MoveKeeps(s, p, Idle);
      if account !in s.periods[i].rows {
        RowCommitKeeps(s, p, i, s.periods[i].(rows := s.periods[i].rows[account := totals]));
      }
    case _ => MoveKeeps(s, p, Idle);
  }

  lemma StepKeeps(s: State, e: Event)
    requires Safe(s) && !e.BeginUnlocked?
    ensures Safe(Step(s, e))
  {
    match e
    case Tick => TickKeeps(s);
    case BeginPost(p) =>
      if PhaseOf(s, p).Idle? && SharedFree(s, p) {
        MoveKeeps(s, p, Posting([], None, true));
      }
    case CheckOpen(_, _) => PosterKeeps(s, e);
    case Insert(_, _) => PosterKeeps(s, e);
    case Commit(p) => CommitKeeps(s, p);
    case Abort(p) => MoveKeeps(s, p, Idle);
    case _ => KeeperKeeps(s, e);
  }

  lemma TickKeeps(s: State)
    requires Safe(s)
    ensures Safe(Step(s, Tick))
  {
    var after := Step(s, Tick);
    forall p | p in after.phases ensures PhaseOk(after, p, after.phases[p]) {
      assert PhaseOk(s, p, s.phases[p]);
    }
  }

  lemma {:induction false} RunKeeps(s: State, events: seq<Event>)
    requires Safe(s) && Barriered(events)
    ensures Safe(Run(s, events))
    decreases |events|
  {
    if events != [] {
      StepKeeps(s, events[0]);
      RunKeeps(Step(s, events[0]), events[1..]);
    }
  }

  // ---------------------------------------------------------------------------
  // Closed months are frozen
  // ---------------------------------------------------------------------------

  /** Closed periods stay, each with its month; a marked one never changes again. */
  ghost predicate PeriodsKept(before: seq<Period>, after: seq<Period>) {
    && |before| <= |after|
    && (forall i | 0 <= i < |before| ::
          after[i].month == before[i].month && (before[i].marked ==> after[i] == before[i]))
  }

  ghost predicate MonthsFrozen(before: State, after: State) {
    forall i | 0 <= i < |before.periods| ::
      OfMonth(after.ledger, before.periods[i].month) == OfMonth(before.ledger, before.periods[i].month)
  }

  lemma StepFreezes(s: State, e: Event)
    requires Safe(s) && !e.BeginUnlocked?
    ensures PeriodsKept(s.periods, Step(s, e).periods) && MonthsFrozen(s, Step(s, e))
  {
    if e.Commit? && PhaseOf(s, e.p) != Idle {
      assert PhaseOk(s, e.p, s.phases[e.p]);
      if PhaseOf(s, e.p).Posting? {
        var own := PhaseOf(s, e.p).own;
        forall i | 0 <= i < |s.periods|
          ensures OfMonth(s.ledger + own, s.periods[i].month) == OfMonth(s.ledger, s.periods[i].month)
        {
          MonthUntouched(s.ledger, own, s.periods[i].month);
        }
      }
    }
  }

  /** Once a close has committed, no interleaving of posters, closers, backfills and
      fabricators, through the services or by direct SQL, changes the postings dated in
      that month; and a marked rollup never gains, loses or changes a row. */
  lemma {:induction false} ClosedMonthsAreFrozen(s: State, events: seq<Event>)
    requires Safe(s) && Barriered(events)
    ensures PeriodsKept(s.periods, Run(s, events).periods) && MonthsFrozen(s, Run(s, events))
    decreases |events|
  {
    if events != [] {
      var next := Step(s, events[0]);
      StepKeeps(s, events[0]);
      StepFreezes(s, events[0]);
      ClosedMonthsAreFrozen(next, events[1..]);
      forall i | 0 <= i < |s.periods|
        ensures OfMonth(Run(s, events).ledger, s.periods[i].month) == OfMonth(s.ledger, s.periods[i].month)
      {
        assert next.periods[i].month == s.periods[i].month;
      }
    }
  }

  /** Before any run: postings in the past, closed periods not yet rolled up, nobody active. */
  ghost predicate Initial(s: State) {
    && s.phases == map[] && Distinct(s.periods) && Elapsed(s)
    && (forall i | 0 <= i < |s.periods| :: !s.periods[i].marked)
  }

  /** In every state any run reaches, the trial balance served from rollups equals the full
      ledger scan, and distinct closed months share no day. */
  lemma BooksAlwaysAgree(s: State, events: seq<Event>, asOf: nat, account: nat, debit: bool)
    requires Initial(s) && Barriered(events)
    ensures var t := Run(s, events);
      TrialBalance(t.ledger, t.periods, asOf, account, debit) == FullScan(t.ledger, asOf, account, debit)
    ensures var t := Run(s, events);
      forall day, i, j | 0 <= i < j < |t.periods| ::
        !(Within(day, t.periods[i].month) && Within(day, t.periods[j].month))
  {
    var t := Run(s, events);
    RunKeeps(s, events);
    TrialBalanceIsExact(t.ledger, t.periods, asOf, account, debit);
    forall day, i, j | 0 <= i < j < |t.periods|
      ensures !(Within(day, t.periods[i].month) && Within(day, t.periods[j].month))
    {
      MonthIsUnique(day, t.periods[i].month);
      MonthIsUnique(day, t.periods[j].month);
    }
  }

  /** A posting the service has checked is never refused by the trigger behind it. */
  lemma TriggerAgreesWithCheck(s: State, p: nat, entry: Entry)
    requires Safe(s) && PhaseOf(s, p).Posting? && PhaseOf(s, p).checked == Some(entry.at)
    ensures PhaseOf(Step(s, Insert(p, entry)), p) == Posting(PhaseOf(s, p).own + [entry], None, true)
  {
    assert PhaseOk(s, p, s.phases[p]);
  }

  predicate OpenDate(s: State, at: nat) {
    forall i | 0 <= i < |s.periods| :: !Within(DayOf(at), s.periods[i].month)
  }

  /** A poster met by no closer, from its lock to its commit. */
  function PostAlone(s: State, p: nat, entry: Entry): State {
    Step(Step(Step(Step(s, BeginPost(p)), CheckOpen(p, entry.at)), Insert(p, entry)), Commit(p))
  }

  /** Its posting is committed exactly when it is dated no more than five minutes ahead and in
      no closed month; nothing else changes. */
  lemma PostAdmits(s: State, p: nat, entry: Entry)
    requires PhaseOf(s, p) == Idle && forall q | q in s.phases :: !s.phases[q].Closing?
    ensures PostAlone(s, p, entry).ledger
         == if entry.at <= s.now + 300_000_000 && OpenDate(s, entry.at) then s.ledger + [entry] else s.ledger
    ensures PostAlone(s, p, entry).periods == s.periods && PhaseOf(PostAlone(s, p, entry), p) == Idle
  {
    var s1 := Step(s, BeginPost(p));
    var s2 := Step(s1, CheckOpen(p, entry.at));
    assert PhaseOf(s1, p) == Posting([], None, true);
    assert [] + [entry] == [entry];
  }

  /** A closer met by nobody, from its lock to its commit. */
  function CloseAlone(s: State, p: nat, month: nat): State {
    Step(Step(Step(s, BeginClose(p, month)), RollUp(p)), Commit(p))
  }

  /** The month is closed, with its rollup, exactly when its last day is over and it was not
      closed before. */
  lemma CloseAdmits(s: State, p: nat, month: nat)
    requires PhaseOf(s, p) == Idle
    requires forall q | q in s.phases :: !s.phases[q].Closing? && !s.phases[q].Posting?
    ensures var t := CloseAlone(s, p, month);
      if FirstDay(month + 1) <= DayOf(s.now) && forall i | 0 <= i < |s.periods| :: s.periods[i].month != month
      then t.periods == s.periods + [Period(month, true, Reconstruct(s.ledger, month))]
      else t.periods == s.periods
    ensures CloseAlone(s, p, month).ledger == s.ledger
  {
    assert FirstDay(month + 1) == FirstDay(month) + DaysIn(month);
  }

  /** Posting one line moves the trial balance of its own account and side by its amount. */
  lemma PostMovesTheBooks(s: State, p: nat, at: nat, l: Line, asOf: nat, account: nat, debit: bool)
    requires Safe(s) && PhaseOf(s, p) == Idle && forall q | q in s.phases :: !s.phases[q].Closing?
    requires at <= s.now + 300_000_000 && OpenDate(s, at)
    ensures var t := PostAlone(s, p, Entry(at, [l]));
      TrialBalance(t.ledger, t.periods, asOf, account, debit)
      == TrialBalance(s.ledger, s.periods, asOf, account, debit)
         + if at <= asOf && l.account == account && l.debit == debit then l.amount else 0
  {
    var entry := Entry(at, [l]);
    var events := [BeginPost(p), CheckOpen(p, at)] + ([Insert(p, entry), Commit(p)] + []);
    var half := Step(Step(s, BeginPost(p)), CheckOpen(p, at));
    Runs.Unrolled2(Step, s, BeginPost(p), CheckOpen(p, at), [Insert(p, entry), Commit(p)] + []);
    Runs.Unrolled2(Step, half, Insert(p, entry), Commit(p), []);
    RunKeeps(s, events);
    PostAdmits(s, p, entry);
    var t := PostAlone(s, p, entry);
    TrialBalanceIsExact(s.ledger, s.periods, asOf, account, debit);
    TrialBalanceIsExact(t.ledger, t.periods, asOf, account, debit);
    PostingAdds(s.ledger, at, l, asOf, account, debit);
  }

  /** A backfill refuses exactly when a row already stored says something the ledger does
      not: a wrong figure, or an account without activity. */
  lemma VerifyCatchesFabrication(s: State, p: nat)
    requires Safe(s) && PhaseOf(s, p).Filling? && PhaseOf(s, p).rows.Some?
    ensures var (i, ledger) := (PhaseOf(s, p).period, s.ledger);
      && i < |s.periods|
      && (PhaseOf(Step(s, Verify(p)), p) == Idle <==>
            exists account :: account in s.periods[i].rows
              && !(account in ActiveAccounts(ledger, s.periods[i].month)
                   && s.periods[i].rows[account] == Reconstruct(ledger, s.periods[i].month)[account]))
  {
    assert PhaseOk(s, p, s.phases[p]);
    var rows, stored := PhaseOf(s, p).rows.value, s.periods[PhaseOf(s, p).period].rows;
    if forall account | account in stored :: account in rows && stored[account] == rows[account] {
      assert rows + stored == rows;
    } else {
      var account :| account in stored && !(account in rows && stored[account] == rows[account]);
      assert (rows + stored)[account] == stored[account];
    }
  }

  /** A backfiller met by nobody, from its lock to its commit. */
  function FillAlone(s: State, p: nat, i: nat): State {
    Step(Step(Step(Step(s, BeginFill(p, i)), FillRows(p)), Verify(p)), Commit(p))
  }

  lemma FillSteps(s: State, p: nat, i: nat, rows: map<nat, Totals>)
    requires PhaseOf(s, p) == Idle && i < |s.periods| && !s.periods[i].marked && RowFree(s, p, i)
    requires rows == Reconstruct(s.ledger, s.periods[i].month)
    ensures var (t, merged) := (FillAlone(s, p, i), Merge(rows, s.periods[i].rows));
      && t.ledger == s.ledger && PhaseOf(t, p) == Idle
      && t.periods == if merged == rows then s.periods[i := s.periods[i].(marked := true, rows := merged)]
                      else s.periods
  {
    assert PhaseOf(Step(Step(s, BeginFill(p, i)), FillRows(p)), p) == Filling(i, Some(rows), false);
  }

  /** It marks an unmarked period, with the ledger's row for every active account and no
      other, exactly when every row already stored is one of those; nothing else changes. */
  lemma FillAdmits(s: State, p: nat, i: nat)
    requires PhaseOf(s, p) == Idle && i < |s.periods| && !s.periods[i].marked
    requires forall q | q in s.phases :: !s.phases[q].Filling? && !s.phases[q].Fabricating?
    ensures var (t, month, stored) := (FillAlone(s, p, i), s.periods[i].month, s.periods[i].rows);
      && t.ledger == s.ledger && PhaseOf(t, p) == Idle
      && t.periods ==
         if forall account | account in stored ::
              account in ActiveAccounts(s.ledger, month)
              && stored[account] == Totals(MonthTotal(s.ledger, month, account, true),
                                           MonthTotal(s.ledger, month, account, false))
         then s.periods[i := Period(month, true, Reconstruct(s.ledger, month))] else s.periods
  {
    var rows := Reconstruct(s.ledger, s.periods[i].month);
    FillSteps(s, p, i, rows);
    MergedAgree(rows, s.periods[i].rows);
  }

  lemma MergedAgree(computed: map<nat, Totals>, stored: map<nat, Totals>)
    ensures Merge(computed, stored) == computed <==>
              forall account | account in stored :: account in computed && stored[account] == computed[account]
  {
    if Merge(computed, stored) == computed {
      forall account | account in stored ensures account in computed && stored[account] == computed[account] {
        assert (computed + stored)[account] == stored[account];
      }
    }
  }

  // ---------------------------------------------------------------------------
  // Why the trigger takes the lock
  // ---------------------------------------------------------------------------

  const LATE := Entry(0, [Line(1, true, 100)])

  function Beginning(): State { State(40 * DAY, [], [], map[]) }

  lemma LateInsert()
    ensures Run(Beginning(), [BeginUnlocked(1)] + [Insert(1, LATE)])
         == State(40 * DAY, [], [], map[1 := Posting([LATE], None, false)])
  {
    var s := Step(Beginning(), BeginUnlocked(1));
    Runs.Unrolled(Step, Beginning(), BeginUnlocked(1), [Insert(1, LATE)]);
    assert [] + [LATE] == [LATE] && [Insert(1, LATE)] == [Insert(1, LATE)] + [];
    Runs.Unrolled(Step, s, Insert(1, LATE), []);
    assert Step(s, Insert(1, LATE)) == Move(s, 1, Posting([LATE], None, false));
  }

  lemma CloseUnderneath(s: State)
    requires s == State(40 * DAY, [], [], map[1 := Posting([LATE], None, false)])
    ensures var t := Run(s, [BeginClose(2, 0)] + ([RollUp(2)] + [Commit(2)]));
      t.ledger == [] && t.periods == [Period(0, true, Reconstruct([], 0))]
      && PhaseOf(t, 1) == Posting([LATE], None, false)
  {
    assert DayOf(40 * DAY) == 40 && FirstDay(0) == 0 && MonthBounds(0).1 == 30;
    var s1 := Step(s, BeginClose(2, 0));
    assert s1 == Move(s, 2, Closing(0, None));
    var s2 := Step(s1, RollUp(2));
    assert s2 == Move(s1, 2, Closing(0, Some(Reconstruct([], 0))));
    Runs.Unrolled(Step, s, BeginClose(2, 0), [RollUp(2)] + [Commit(2)]);
    Runs.Unrolled(Step, s1, RollUp(2), [Commit(2)]);
    assert [Commit(2)] == [Commit(2)] + [];
    Runs.Unrolled(Step, s2, Commit(2), []);
    assert [] + [Period(0, true, Reconstruct([], 0))] == [Period(0, true, Reconstruct([], 0))];
  }

  lemma LateTotals(keep: Entry -> bool)
    ensures Sum([LATE], 1, true, keep) == if keep(LATE) then 100 else 0
  {
    assert LineTotal(LATE.lines, 1, true) == 100;
    assert [LATE][..0] == [];
  }

  lemma MissedByTheRollup(p: Period)
    requires p == Period(0, true, Reconstruct([], 0))
    ensures OfMonth([], 0) == [] && OfMonth([LATE], 0) == [LATE]
    ensures LiveScan([LATE], [p], 40 * DAY, 1, true) == 0 && FullScan([LATE], 40 * DAY, 1, true) == 100
    ensures Rolled([p], 40 * DAY, 1, true) == 0
  {
    assert FirstDay(0) == 0 && MonthBounds(0).1 == 30 && DayOf(0) == 0 && DayOf(40 * DAY) == 40;
    assert InMonth(LATE, 0) && Covers([p][0], 40 * DAY) && Covered([p], 40 * DAY, LATE);
    LateTotals(Uncovered([p], 40 * DAY));
    LateTotals(UpTo(40 * DAY));
    assert [p][..0] == [] && [LATE][..0] == [];
  }

  /** A direct insert whose trigger checks without the lock can commit into a month that
      closed meanwhile: the month's postings change after its close, and the trial balance
      misses the posting. */
  lemma UnlockedTriggerBreaksTheBooks() returns (closed: seq<Event>, events: seq<Event>)
    ensures closed <= events && Initial(Beginning())
    ensures var (s, t) := (Run(Beginning(), closed), Run(Beginning(), events));
      && Claimed(s.periods, 0) && OfMonth(s.ledger, 0) == [] && OfMonth(t.ledger, 0) == [LATE]
      && TrialBalance(t.ledger, t.periods, 40 * DAY, 1, true) == 0 && FullScan(t.ledger, 40 * DAY, 1, true) == 100
  {
    var insert := [BeginUnlocked(1)] + [Insert(1, LATE)];
    var close := [BeginClose(2, 0)] + ([RollUp(2)] + [Commit(2)]);
    closed := insert + close;
    events := closed + [Commit(1)];
    LateInsert();
    var s := Run(Beginning(), insert);
    CloseUnderneath(s);
    Runs.Concat(Step, Beginning(), insert, close);
    Runs.Concat(Step, Beginning(), closed, [Commit(1)]);
    assert Run(s, close).periods[0].month == 0;
    MissedByTheRollup(Period(0, true, Reconstruct([], 0)));
  }
}
