/** Statement openings anchored on closed months. Rolling a month up stores, for every member
    active in it, the balance at its end; an opening balance is the latest such anchor plus
    the movement since. Months may be closed in any order, so an earlier month can still be
    open, and receive postings, when a later one is rolled up. */
module MemberAnchors {
  import opened Options
  import opened Calendar
  import Runs

  /** A transaction's signed effect on its member at an instant. */
  datatype Movement = Movement(member: nat, at: nat, amount: int)

  /** A row of member_period_balances for a marked period. */
  datatype Anchor = Anchor(month: nat, member: nat, balance: int)

  datatype Books = Books(movements: seq<Movement>, closed: set<nat>, anchors: seq<Anchor>)

  /** Movement of the member from the instant `from` on and before `before`. */
  function Moved(movements: seq<Movement>, member: nat, from: nat, before: nat): int {
    if movements == [] then 0
    else
      var last := movements[|movements| - 1];
      var own := if last.member == member && from <= last.at < before then last.amount else 0;
      Moved(movements[..|movements| - 1], member, from, before) + own
  }

  function Midnight(day: nat): nat { day * DAY }

  /** Every scan stops before the window's first day and after the export's own instant. */
  function Cut(before: nat, asOf: nat): nat { if Midnight(before) <= asOf then Midnight(before) else asOf + 1 }

  /** The full-history opening scan. */
  function FullOpening(movements: seq<Movement>, member: nat, before: nat, asOf: nat): int {
    Moved(movements, member, 0, Cut(before, asOf))
  }

  /** The first day after an anchor's month. */
  function Resume(a: Anchor): nat { FirstDay(a.month + 1) }

  /** The latest anchor of the member whose month ends before the day `before`. */
  function LatestAnchor(anchors: seq<Anchor>, member: nat, before: nat): (found: Option<Anchor>)
    ensures found.Some? ==> found.value in anchors && found.value.member == member && Resume(found.value) <= before
    ensures forall a | a in anchors && a.member == member && Resume(a) <= before ::
              found.Some? && a.month <= found.value.month
  {
    if anchors == [] then None
    else
      var last := anchors[|anchors| - 1];
      var earlier := LatestAnchor(anchors[..|anchors| - 1], member, before);
      if last.member == member && Resume(last) <= before && (earlier == None || last.month > earlier.value.month)
      then Some(last) else earlier
  }

  function AnchoredOpening(b: Books, member: nat, before: nat, asOf: nat): int {
    match LatestAnchor(b.anchors, member, before)
    case None => FullOpening(b.movements, member, before, asOf)
    case Some(a) => a.balance + Moved(b.movements, member, Midnight(Resume(a)), Cut(before, asOf))
  }

  // ---------------------------------------------------------------------------
  // Operations
  // ---------------------------------------------------------------------------

  /** A posting is refused when its date falls in a closed month. */
  function Post(b: Books, x: Movement): Books {
    if MonthOf(DayOf(x.at)) in b.closed then b else b.(movements := b.movements + [x])
  }

  function Members(movements: seq<Movement>, month: nat): (members: seq<nat>) {
    if movements == [] then []
    else
      var last := movements[|movements| - 1];
      var earlier := Members(movements[..|movements| - 1], month);
      if Within(DayOf(last.at), month) && last.member !in earlier then earlier + [last.member] else earlier
  }

  /** What an anchor stores: the opening of the next month, as of its first midnight. */
  function MonthEnd(b: Books, month: nat, member: nat): int {
    AnchoredOpening(b, member, FirstDay(month + 1), Midnight(FirstDay(month + 1)))
  }

  function AnchorsFor(b: Books, month: nat, members: seq<nat>): (anchors: seq<Anchor>) {
    if members == [] then []
    else
      var m := members[|members| - 1];
      AnchorsFor(b, month, members[..|members| - 1]) + [Anchor(month, m, MonthEnd(b, month, m))]
  }

  /** Closing a fully elapsed month rolls it up in the same transaction. */
  function Close(b: Books, month: nat, today: nat): Books {
    if month in b.closed || today < FirstDay(month + 1) then b
    else b.(closed := b.closed + {month}, anchors := b.anchors + AnchorsFor(b, month, Members(b.movements, month)))
  }

  // ---------------------------------------------------------------------------
  // Exactness
  // ---------------------------------------------------------------------------

  ghost predicate Exact(movements: seq<Movement>, a: Anchor) {
    a.balance == Moved(movements, a.member, 0, Midnight(Resume(a)))
  }

  ghost predicate AllExact(b: Books) {
    forall i | 0 <= i < |b.anchors| :: Exact(b.movements, b.anchors[i])
  }

  lemma {:induction false} MovedSplits(movements: seq<Movement>, member: nat, from: nat, mid: nat, before: nat)
    requires from <= mid <= before
    ensures Moved(movements, member, from, before)
         == Moved(movements, member, from, mid) + Moved(movements, member, mid, before)
  {
    if movements != [] {
      MovedSplits(movements[..|movements| - 1], member, from, mid, before);
    }
  }

  lemma MovedGrows(movements: seq<Movement>, x: Movement, member: nat, from: nat, before: nat)
    ensures Moved(movements + [x], member, from, before)
         == Moved(movements, member, from, before)
            + if x.member == member && from <= x.at < before then x.amount else 0
  {
    assert (movements + [x])[..|movements|] == movements;
  }

  lemma {:induction false} NothingMoves(movements: seq<Movement>, member: nat, from: nat, before: nat)
    requires before <= from
    ensures Moved(movements, member, from, before) == 0
  {
    if movements != [] {
      NothingMoves(movements[..|movements| - 1], member, from, before);
    }
  }

  /** An opening counts a movement exactly when it is the member's own, before the window's
      first day and no later than the export. */
  lemma OpeningCounts(movements: seq<Movement>, x: Movement, member: nat, before: nat, asOf: nat)
    ensures FullOpening(movements + [x], member, before, asOf)
         == FullOpening(movements, member, before, asOf)
            + if x.member == member && DayOf(x.at) < before && x.at <= asOf then x.amount else 0
    ensures FullOpening([], member, before, asOf) == 0
  {
    MovedGrows(movements, x, member, 0, Cut(before, asOf));
    EarlierDay(x.at, before);
  }

  lemma EarlierDay(at: nat, day: nat)
    ensures DayOf(at) < day <==> at < Midnight(day)
  {
  }

  /** A month's members are those with a movement in it, each once. */
  lemma {:induction false} MembersMoved(movements: seq<Movement>, month: nat, member: nat)
    ensures member in Members(movements, month) <==>
              exists x | x in movements :: x.member == member && Within(DayOf(x.at), month)
    ensures forall i, j | 0 <= i < j < |Members(movements, month)| ::
              Members(movements, month)[i] != Members(movements, month)[j]
  {
    if movements != [] {
      var init, last := movements[..|movements| - 1], movements[|movements| - 1];
      MembersMoved(init, month, member);
      assert movements == init + [last];
    }
  }

  /** What an anchor holds beyond the export's instant. */
  function PastExport(b: Books, member: nat, before: nat, asOf: nat): int {
    match LatestAnchor(b.anchors, member, before)
    case None => 0
    case Some(a) => Moved(b.movements, member, Cut(before, asOf), Midnight(Resume(a)))
  }

  /** With exact anchors, the anchored opening is the full scan plus whatever its anchor holds
      beyond the export's instant; that is nothing when every anchored month has elapsed. */
  lemma OpeningIsExact(b: Books, member: nat, before: nat, asOf: nat)
    requires AllExact(b)
    ensures AnchoredOpening(b, member, before, asOf)
         == FullOpening(b.movements, member, before, asOf) + PastExport(b, member, before, asOf)
    ensures ElapsedBy(b, DayOf(asOf)) ==> PastExport(b, member, before, asOf) == 0
  {
    match LatestAnchor(b.anchors, member, before)
    case None =>
    case Some(a) =>
      var cut, resume := Cut(before, asOf), Midnight(Resume(a));
      assert Exact(b.movements, a);
      if resume <= cut {
        MovedSplits(b.movements, member, 0, resume, cut);
        NothingMoves(b.movements, member, cut, resume);
      } else {
        MovedSplits(b.movements, member, 0, cut, resume);
        NothingMoves(b.movements, member, resume, cut);
        assert asOf < resume && DayOf(asOf) < Resume(a);
      }
  }

  /** Every anchored month had ended by that day. */
  ghost predicate ElapsedBy(b: Books, day: nat) {
    forall i | 0 <= i < |b.anchors| :: Resume(b.anchors[i]) <= day
  }

  /** An anchor a scan starts from never reaches beyond the scan's own first day. */
  lemma AnchorsBefore(b: Books, member: nat, before: nat)
    ensures PastExport(b, member, before, Midnight(before)) == 0
  {
    match LatestAnchor(b.anchors, member, before)
    case None =>
    case Some(a) => NothingMoves(b.movements, member, Midnight(before), Midnight(Resume(a)));
  }

  lemma {:induction false} NewAnchorsExact(b: Books, month: nat, members: seq<nat>)
    requires AllExact(b)
    ensures forall i | 0 <= i < |AnchorsFor(b, month, members)| :: Exact(b.movements, AnchorsFor(b, month, members)[i])
  {
    if members != [] {
      NewAnchorsExact(b, month, members[..|members| - 1]);
      var m, next := members[|members| - 1], FirstDay(month + 1);
      OpeningIsExact(b, m, next, Midnight(next));
      AnchorsBefore(b, m, next);
    }
  }

  lemma {:induction false} AnchorsOfMonth(b: Books, month: nat, members: seq<nat>)
    ensures var rows := AnchorsFor(b, month, members);
      |rows| == |members| && forall i | 0 <= i < |rows| :: rows[i].month == month && rows[i].member == members[i]
  {
    if members != [] {
      AnchorsOfMonth(b, month, members[..|members| - 1]);
    }
  }

  lemma CloseKeepsExact(b: Books, month: nat, today: nat)
    requires AllExact(b)
    ensures AllExact(Close(b, month, today))
    ensures forall day | today <= day && ElapsedBy(b, day) :: ElapsedBy(Close(b, month, today), day)
  {
    NewAnchorsExact(b, month, Members(b.movements, month));
    AnchorsOfMonth(b, month, Members(b.movements, month));
  }

  /** The month's anchors hold the member's balance at its end. */
  ghost predicate Stores(b: Books, rows: seq<Anchor>, month: nat, member: nat) {
    exists i | 0 <= i < |rows| ::
      rows[i] == Anchor(month, member, Moved(b.movements, member, 0, Midnight(FirstDay(month + 1))))
  }

  lemma RowsStore(b: Books, rows: seq<Anchor>, month: nat, members: seq<nat>, member: nat)
    requires |rows| == |members| && forall i | 0 <= i < |rows| :: rows[i].month == month && rows[i].member == members[i]
    requires forall i | 0 <= i < |rows| :: Exact(b.movements, rows[i])
    ensures Stores(b, rows, month, member) <==> member in members
  {
    forall i | 0 <= i < |rows|
      ensures rows[i] == Anchor(month, members[i], Moved(b.movements, members[i], 0, Midnight(FirstDay(month + 1))))
    {
      assert Exact(b.movements, rows[i]);
    }
  }

  /** A close that is not refused stores the full balance at the month's end for exactly the
      members with a movement in the month, once each, and changes nothing else. */
  lemma CloseRollsUp(b: Books, month: nat, today: nat, rows: seq<Anchor>, member: nat)
    requires AllExact(b) && month !in b.closed && FirstDay(month + 1) <= today
    requires rows == Close(b, month, today).anchors[|b.anchors|..]
    ensures Close(b, month, today) == Books(b.movements, b.closed + {month}, b.anchors + rows)
    ensures Stores(b, rows, month, member) <==>
              exists x | x in b.movements :: x.member == member && Within(DayOf(x.at), month)
    ensures forall i, j | 0 <= i < j < |rows| :: rows[i].member != rows[j].member
  {
    var members := Members(b.movements, month);
    AnchorsOfMonth(b, month, members);
    NewAnchorsExact(b, month, members);
    MembersMoved(b.movements, month, member);
    assert rows == AnchorsFor(b, month, members);
    RowsStore(b, rows, month, members, member);
  }

  /** What a caller can check before posting: no anchor of the member lies after the date. */
  predicate LandsAfterAnchors(b: Books, x: Movement) {
    forall i | 0 <= i < |b.anchors| :: Clears(b.anchors[i], x)
  }

  predicate Clears(a: Anchor, x: Movement) { a.member == x.member ==> Midnight(Resume(a)) <= x.at }

  lemma AppendKeepsOne(movements: seq<Movement>, x: Movement, a: Anchor)
    requires Exact(movements, a)
    ensures Exact(movements + [x], a) <==> x.amount == 0 || Clears(a, x)
  {
    MovedGrows(movements, x, a.member, 0, Midnight(Resume(a)));
  }

  /** A posting keeps every anchor exact exactly when it is refused, moves nothing, or its
      member has no anchor after its date: a month rolled up before an earlier one is closed
      goes stale the moment that earlier month receives a posting. */
  lemma PostKeepsExact(b: Books, x: Movement)
    requires AllExact(b)
    ensures AllExact(Post(b, x)) <==> (MonthOf(DayOf(x.at)) in b.closed || x.amount == 0 || LandsAfterAnchors(b, x))
  {
    if MonthOf(DayOf(x.at)) !in b.closed {
      forall i | 0 <= i < |b.anchors|
        ensures Exact(b.movements + [x], b.anchors[i]) <==> x.amount == 0 || Clears(b.anchors[i], x)
      {
        assert Exact(b.movements, b.anchors[i]);
        AppendKeepsOne(b.movements, x, b.anchors[i]);
      }
    }
  }

  /** ... and then every opening served from the stale anchor is off by exactly the posting. */
  lemma StaleOpeningsMissThePosting(b: Books, x: Movement, before: nat, asOf: nat)
    requires AllExact(b) && ElapsedBy(b, DayOf(asOf)) && MonthOf(DayOf(x.at)) !in b.closed
    ensures var (after, anchor) := (Post(b, x), LatestAnchor(b.anchors, x.member, before));
      AnchoredOpening(after, x.member, before, asOf)
      == FullOpening(after.movements, x.member, before, asOf)
         - if anchor.Some? && x.at < Midnight(Resume(anchor.value)) then x.amount else 0
  {
    OpeningIsExact(b, x.member, before, asOf);
    MovedGrows(b.movements, x, x.member, 0, Cut(before, asOf));
    match LatestAnchor(b.anchors, x.member, before)
    case None =>
    case Some(a) =>
      MovedGrows(b.movements, x, x.member, Midnight(Resume(a)), Cut(before, asOf));
  }

  datatype Command = CPost(x: Movement) | CClose(month: nat, today: nat)

  function Step(b: Books, c: Command): Books {
    match c
    case CPost(x) => Post(b, x)
    case CClose(month, today) => Close(b, month, today)
  }

  function Run(b: Books, commands: seq<Command>): Books { Runs.Run(Step, b, commands) }

  /** No posting is ever dated before an anchor its member already has. */
  predicate ForwardRun(b: Books, commands: seq<Command>)
    decreases |commands|
  {
    commands == []
    || ((commands[0].CPost? ==> LandsAfterAnchors(b, commands[0].x)) && ForwardRun(Step(b, commands[0]), commands[1..]))
  }

  /** Every close of the run happens on that day or earlier. */
  ghost predicate ClosedBy(commands: seq<Command>, day: nat) {
    forall i | 0 <= i < |commands| && commands[i].CClose? :: commands[i].today <= day
  }

  /** On such runs every anchor stays exact, and so does every opening balance exported on or
      after the day of the last close. */
  lemma {:induction false} ForwardRunsStayExact(b: Books, commands: seq<Command>, member: nat, before: nat, asOf: nat)
    requires AllExact(b) && ForwardRun(b, commands)
    requires ElapsedBy(b, DayOf(asOf)) && ClosedBy(commands, DayOf(asOf))
    ensures AllExact(Run(b, commands)) && ElapsedBy(Run(b, commands), DayOf(asOf))
    ensures AnchoredOpening(Run(b, commands), member, before, asOf)
         == FullOpening(Run(b, commands).movements, member, before, asOf)
    decreases |commands|
  {
    if commands == [] {
      OpeningIsExact(b, member, before, asOf);
    } else {
      match commands[0] {
        case CPost(x) => PostKeepsExact(b, x);
        case CClose(month, today) => CloseKeepsExact(b, month, today);
      }
      ForwardRunsStayExact(Step(b, commands[0]), commands[1..], member, before, asOf);
    }
  }

  // ---------------------------------------------------------------------------
  // Closing out of order
  // ---------------------------------------------------------------------------

  const FEBRUARY := Movement(7, 40 * DAY, 100)
  const JANUARY := Movement(7, 10 * DAY, 5)
  const MARCH := 60 * DAY

  lemma {:induction false} OneMovement(x: Movement, month: nat, member: nat, before: nat)
    ensures Members([x], month) == (if Within(DayOf(x.at), month) then [x.member] else [])
    ensures Moved([x], member, 0, before) == if x.member == member && x.at < before then x.amount else 0
  {
    assert [x][..0] == [];
    assert Members([], month) == [] && Moved([], member, 0, before) == 0;
  }

  lemma OneAnchor(b: Books, month: nat, member: nat)
    requires b.anchors == []
    ensures var next := FirstDay(month + 1);
      AnchorsFor(b, month, [member]) == [Anchor(month, member, FullOpening(b.movements, member, next, Midnight(next)))]
  {
    assert [member][..0] == [] && AnchorsFor(b, month, []) == [];
    assert LatestAnchor([], member, FirstDay(month + 1)) == None;
  }

  lemma FebruaryRolledFirst()
    ensures Close(Post(Books([], {}, []), FEBRUARY), 1, 60) == Books([FEBRUARY], {1}, [Anchor(1, 7, 100)])
  {
    var b := Books([FEBRUARY], {}, []);
    assert Post(Books([], {}, []), FEBRUARY) == b by {
      assert [] + [FEBRUARY] == [FEBRUARY];
    }
    OneMovement(FEBRUARY, 1, 7, Midnight(59));
    OneAnchor(b, 1, 7);
    assert [] + [Anchor(1, 7, 100)] == [Anchor(1, 7, 100)];
  }

  lemma AnchoredInFebruary(b: Books)
    requires b == Books([FEBRUARY], {1}, [Anchor(1, 7, 100)])
    ensures AllExact(b) && ElapsedBy(b, 60) && LatestAnchor(b.anchors, 7, 59) == Some(Anchor(1, 7, 100))
  {
    OneMovement(FEBRUARY, 1, 7, Midnight(59));
    assert [Anchor(1, 7, 100)][..0] == [] && LatestAnchor([], 7, 59) == None;
  }

  lemma MarchOpening()
    ensures FullOpening([FEBRUARY] + [JANUARY], 7, 59, MARCH) == 105
  {
    OneMovement(FEBRUARY, 1, 7, Midnight(59));
    MovedGrows([FEBRUARY], JANUARY, 7, 0, Midnight(59));
  }

  /** February is closed first; a January posting then makes the March opening wrong. */
  lemma ClosedOutOfOrder()
    ensures var b := Post(Close(Post(Books([], {}, []), FEBRUARY), 1, 60), JANUARY);
      AnchoredOpening(b, 7, 59, MARCH) == 100 && FullOpening(b.movements, 7, 59, MARCH) == 105
  {
    FebruaryRolledFirst();
    var b := Books([FEBRUARY], {1}, [Anchor(1, 7, 100)]);
    AnchoredInFebruary(b);
    StaleOpeningsMissThePosting(b, JANUARY, 59, MARCH);
    MarchOpening();
  }

  // ---------------------------------------------------------------------------
  // The writer and the reader
  // ---------------------------------------------------------------------------

  class Statements {
    var movements: seq<Movement>
    var closed: set<nat>
    var anchors: seq<Anchor>

    function Snapshot(): Books
      reads this
    {
      Books(movements, closed, anchors)
    }

    /** The posting gate. What it accepts keeps the anchors exact exactly when nothing moves or
        no anchor of the member lies after it. */
    method Record(x: Movement) returns (accepted: bool)
      modifies this`movements
      ensures accepted <==> MonthOf(DayOf(x.at)) !in closed
      ensures movements == if accepted then old(movements) + [x] else old(movements)
      ensures old(AllExact(Snapshot())) ==>
                (AllExact(Snapshot()) <==> !accepted || x.amount == 0 || LandsAfterAnchors(old(Snapshot()), x))
    {
      if AllExact(Snapshot()) {
        PostKeepsExact(Snapshot(), x);
      }
      accepted := MonthOf(DayOf(x.at)) !in closed;
      if accepted {
        movements := movements + [x];
      }
    }

    /** Balance over the activity before a date: the anchor, then the delta since. */
    method BalanceBefore(member: nat, before: nat, asOf: nat) returns (balance: int)
      ensures balance == AnchoredOpening(Snapshot(), member, before, asOf)
      ensures AllExact(Snapshot()) && ElapsedBy(Snapshot(), DayOf(asOf)) ==>
                balance == FullOpening(movements, member, before, asOf)
    {
      if AllExact(Snapshot()) {
        OpeningIsExact(Snapshot(), member, before, asOf);
      }
      var anchor, cut := LatestAnchor(anchors, member, before), Cut(before, asOf);
      if anchor == None {
        balance := Moved(movements, member, 0, cut);
      } else {
        balance := anchor.value.balance + Moved(movements, member, Midnight(Resume(anchor.value)), cut);
      }
    }

    /** Claim the month, then write one anchor per member active in it. */
    method CloseMonth(month: nat, today: nat) returns (claimed: bool)
      modifies this
      ensures Snapshot() == Close(old(Snapshot()), month, today)
      ensures claimed <==> month !in old(closed) && FirstDay(month + 1) <= today
      ensures old(AllExact(Snapshot())) ==> AllExact(Snapshot())
    {
      if AllExact(Snapshot()) {
        CloseKeepsExact(Snapshot(), month, today);
      }
      claimed := month !in closed && FirstDay(month + 1) <= today;
      if !claimed {
        return;
      }
      var members := Members(movements, month);
      var rows, next := [], FirstDay(month + 1);
      for i := 0 to |members|
        invariant Snapshot() == old(Snapshot())
        invariant rows == AnchorsFor(Snapshot(), month, members[..i])
      {
        var balance := BalanceBefore(members[i], next, Midnight(next));
        assert members[..i + 1][..i] == members[..i];
        rows := rows + [Anchor(month, members[i], balance)];
      }
      assert members[..|members|] == members;
      closed, anchors := closed + {month}, anchors + rows;
    }
  }
}
