/** Receipts against one write-off recorded by any number of concurrent transactions: the
    service, which locks the write-off row first, and direct SQL, which inserts and leaves
    the cap to the trigger. Row locks last to commit or abort; every statement reads the
    committed rows plus its own. `locking` says whether the trigger locks the parent row
    before it sums: it does since migration 0034, it did not in 0030. */
module RecoveryRace {
  import opened Options
  import Runs

  /** One transaction. `rows` are its uncommitted, already checked receipts; `vetted` marks a
      row the service inserted after its own check. */
  datatype Phase =
    | Idle
    | Posting                                                 // executing the write-off, row locked
    | Serving(amount: nat, outstanding: Option<int>)          // service: row locked, sum read or not yet
    | Inserted(rows: seq<nat>, amount: nat, anchored: bool, vetted: bool)  // trigger still to run
    | Checked(rows: seq<nat>)                                 // every row passed its trigger

  datatype State = State(executed: bool, total: nat, committed: seq<nat>, holder: Option<nat>, phases: map<nat, Phase>)

  datatype Event =
    | StartPosting(p: nat)
    | StartReceipt(p: nat, amount: nat)
    | ReadOutstanding(p: nat)
    | InsertServed(p: nat)
    | InsertDirect(p: nat, amount: nat)
    | LockAnchor(p: nat)
    | RunTrigger(p: nat)
    | Commit(p: nat)
    | Abort(p: nat)

  function Sum(amounts: seq<nat>): (s: nat) {
    if amounts == [] then 0 else Sum(amounts[..|amounts| - 1]) + amounts[|amounts| - 1]
  }

  function PhaseOf(s: State, p: nat): Phase { if p in s.phases then s.phases[p] else Idle }

  predicate Free(s: State, p: nat) { s.holder == None || s.holder == Some(p) }

  function Move(s: State, p: nat, phase: Phase): State { s.(phases := s.phases[p := phase]) }

  /** Rolled back or committed: the transaction is gone and so is its lock. */
  function Ended(s: State, p: nat): State {
    Move(s, p, Idle).(holder := if s.holder == Some(p) then None else s.holder)
  }

  /** One statement of one transaction; an event that is not enabled is a wait. */
  function Step(s: State, e: Event, locking: bool): State {
    var phase := PhaseOf(s, e.p);
    match e
    case StartPosting(p) =>
      if phase.Idle? && Free(s, p) && !s.executed then Move(s, p, Posting).(holder := Some(p)) else s
    case StartReceipt(p, amount) =>
      if !(phase.Idle? && Free(s, p) && amount > 0) then s
      else if !s.executed then s
      else Move(s, p, Serving(amount, None)).(holder := Some(p))
    case ReadOutstanding(p) =>
      if phase.Serving? && phase.outstanding == None
      then Move(s, p, Serving(phase.amount, Some(s.total - Sum(s.committed)))) else s
    case InsertServed(p) =>
      if !(phase.Serving? && phase.outstanding.Some?) then s
      else if phase.amount > phase.outstanding.value then Ended(s, p)
      else Move(s, p, Inserted([], phase.amount, false, true))
    case InsertDirect(p, amount) =>
      if amount > 0 && phase.Idle? then Move(s, p, Inserted([], amount, false, false))
      else if amount > 0 && phase.Checked? then Move(s, p, Inserted(phase.rows, amount, false, false))
      else s
    case LockAnchor(p) =>
      if !phase.Inserted? then s
      else if !locking then Move(s, p, phase.(anchored := true))
      else if Free(s, p) then Move(s, p, phase.(anchored := true)).(holder := Some(p))
      else s
    case RunTrigger(p) =>
      if !(phase.Inserted? && phase.anchored) then s
      else if s.executed && Sum(s.committed) + Sum(phase.rows + [phase.amount]) <= s.total
      then Move(s, p, Checked(phase.rows + [phase.amount]))
      else Ended(s, p)
    case Commit(p) =>
      if phase.Checked? then Ended(s, p).(committed := s.committed + phase.rows)
      else if phase.Posting? then Ended(s, p).(executed := true)
      else s
    case Abort(p) => Ended(s, p)
  }

  function Under(locking: bool): (State, Event) -> State { (s: State, e: Event) => Step(s, e, locking) }

  function Run(s: State, events: seq<Event>, locking: bool): State { Runs.Run(Under(locking), s, events) }

  function Start(executed: bool, total: nat): State { State(executed, total, [], None, map[]) }

  // ---------------------------------------------------------------------------
  // The cap under every interleaving
  // ---------------------------------------------------------------------------

  /** What a transaction in each phase knows: whoever has checked rows, or has read the
      outstanding claim, holds the row, and its reading is still the truth. */
  ghost predicate PhaseOk(s: State, p: nat, phase: Phase) {
    match phase
    case Idle => true
    case Posting => s.holder == Some(p)
    case Serving(amount, outstanding) =>
      && s.holder == Some(p) && s.executed && amount > 0
      && (outstanding.Some? ==> outstanding.value == s.total - Sum(s.committed))
    case Inserted(rows, amount, anchored, vetted) =>
      && (rows != [] || anchored || vetted ==> s.holder == Some(p))
      && (rows != [] ==> s.executed && Sum(s.committed) + Sum(rows) <= s.total)
      && (vetted ==> rows == [] && s.executed && Sum(s.committed) + amount <= s.total)
    case Checked(rows) =>
      s.holder == Some(p) && s.executed && rows != [] && Sum(s.committed) + Sum(rows) <= s.total
  }

  ghost predicate Safe(s: State) {
    && Sum(s.committed) <= s.total
    && (s.committed != [] ==> s.executed)
    && (forall p | p in s.phases :: PhaseOk(s, p, s.phases[p]))
  }

  lemma {:induction false} SumConcat(a: seq<nat>, b: seq<nat>)
    ensures Sum(a + b) == Sum(a) + Sum(b)
  {
    if b == [] {
      assert a + b == a;
    } else {
      var n := |b| - 1;
      SumConcat(a, b[..n]);
      assert (a + b)[..|a + b| - 1] == a + b[..n];
    }
  }

  /** A phase whose own conditions hold disturbs no other transaction ... */
  lemma MoveKeeps(s: State, p: nat, phase: Phase)
    requires Safe(s) && PhaseOk(s, p, phase)
    ensures Safe(Move(s, p, phase))
  {
  }

  /** ... nor does taking a row lock that was free ... */
  lemma AcquireKeeps(s: State, p: nat, phase: Phase)
    requires Safe(s) && Free(s, p) && PhaseOk(s.(holder := Some(p)), p, phase)
    ensures Safe(Move(s, p, phase).(holder := Some(p)))
  {
    var after := Move(s, p, phase).(holder := Some(p));
    forall q | q in after.phases ensures PhaseOk(after, q, after.phases[q]) {
      if q != p {
        assert PhaseOk(s, q, s.phases[q]);
      }
    }
  }

  /** ... nor ending the transaction. */
  lemma EndKeeps(s: State, p: nat)
    requires Safe(s)
    ensures Safe(Ended(s, p))
  {
    var after := Ended(s, p);
    forall q | q in after.phases ensures PhaseOk(after, q, after.phases[q]) {
      if q != p {
        assert PhaseOk(s, q, s.phases[q]);
      }
    }
  }

  /** Only the holder can commit, so no other transaction's knowledge goes stale. */
  lemma CommitKeeps(s: State, p: nat)
    requires Safe(s) && (PhaseOf(s, p).Checked? || PhaseOf(s, p).Posting?)
    ensures Safe(Step(s, Commit(p), true))
  {
    var phase := PhaseOf(s, p);
    assert PhaseOk(s, p, phase);
    EndKeeps(s, p);
    if phase.Checked? {
      SumConcat(s.committed, phase.rows);
    }
    var after := Step(s, Commit(p), true);
    forall q | q in after.phases ensures PhaseOk(after, q, after.phases[q]) {
      if q != p {
        assert PhaseOk(s, q, s.phases[q]);
      }
    }
  }

  lemma TriggerKeeps(s: State, p: nat)
    requires Safe(s) && PhaseOf(s, p).Inserted? && PhaseOf(s, p).anchored
    ensures Safe(Step(s, RunTrigger(p), true))
  {
    var phase := PhaseOf(s, p);
    assert PhaseOk(s, p, phase);
    EndKeeps(s, p);
    if s.executed && Sum(s.committed) + Sum(phase.rows + [phase.amount]) <= s.total {
      MoveKeeps(s, p, Checked(phase.rows + [phase.amount]));
    }
  }

  lemma ServiceKeeps(s: State, e: Event)
    requires Safe(s) && (e.StartPosting? || e.StartReceipt? || e.ReadOutstanding? || e.InsertServed?)
    ensures Safe(Step(s, e, true))
  {
    var phase, after := PhaseOf(s, e.p), Step(s, e, true);
    assert phase == Idle || PhaseOk(s, e.p, phase);
    if e.StartPosting? || e.StartReceipt? {
      if after != s {
        AcquireKeeps(s, e.p, PhaseOf(after, e.p));
      }
    } else {
      EndKeeps(s, e.p);
      if after != s && after != Ended(s, e.p) {
        MoveKeeps(s, e.p, PhaseOf(after, e.p));
      }
    }
  }

  lemma StepKeeps(s: State, e: Event)
    requires Safe(s)
    ensures Safe(Step(s, e, true))
  {
    var p := e.p;
    var phase := PhaseOf(s, p);
    assert phase == Idle || PhaseOk(s, p, phase);
    match e
    case InsertDirect(_, amount) =>
      if amount > 0 && (phase.Idle? || phase.Checked?) {
        MoveKeeps(s, p, Inserted(if phase.Checked? then phase.rows else [], amount, false, false));
      }
    case LockAnchor(_) =>
      if phase.Inserted? && Free(s, p) {
        AcquireKeeps(s, p, phase.(anchored := true));
      }
    case RunTrigger(_) =>
      if phase.Inserted? && phase.anchored {
        TriggerKeeps(s, p);
      }
    case Commit(_) =>
      if phase.Checked? || phase.Posting? {
        CommitKeeps(s, p);
      }
    case Abort(_) => EndKeeps(s, p);
    case _ => ServiceKeeps(s, e);
  }

  /** In every interleaving of service receipts, direct inserts and the posting itself, the
      committed receipts never exceed the claim and exist only once it is posted. */
  lemma {:induction false} CapHolds(s: State, events: seq<Event>)
    requires Safe(s)
    ensures Safe(Run(s, events, true))
    decreases |events|
  {
    if events != [] {
      StepKeeps(s, events[0]);
      CapHolds(Step(s, events[0], true), events[1..]);
    }
  }

  lemma CapFromTheStart(executed: bool, total: nat, events: seq<Event>)
    ensures var s := Run(Start(executed, total), events, true);
      Sum(s.committed) <= total && (s.committed != [] ==> s.executed)
  {
    CapHolds(Start(executed, total), events);
    TotalIsPinned(Start(executed, total), events, true);
  }

  lemma {:induction false} TotalIsPinned(s: State, events: seq<Event>, locking: bool)
    ensures Run(s, events, locking).total == s.total
    decreases |events|
  {
    if events != [] {
      TotalIsPinned(Step(s, events[0], locking), events[1..], locking);
    }
  }

  /** A receipt that passed the service's own check is never refused by the trigger,
      whatever ran in between. */
  lemma ServiceNeverTripsTheTrigger(executed: bool, total: nat, events: seq<Event>, p: nat)
    ensures var s := Run(Start(executed, total), events, true);
      var phase := PhaseOf(s, p);
      phase.Inserted? && phase.vetted && phase.anchored ==>
        PhaseOf(Step(s, RunTrigger(p), true), p) == Checked([phase.amount])
  {
    var s := Run(Start(executed, total), events, true);
    CapHolds(Start(executed, total), events);
    var phase := PhaseOf(s, p);
    if phase.Inserted? && phase.vetted {
      assert PhaseOk(s, p, phase);
      assert Sum([phase.amount]) == phase.amount by {
        assert [phase.amount][..0] == [];
      }
      assert phase.rows + [phase.amount] == [phase.amount];
    }
  }

  lemma OneMore(rows: seq<nat>, amount: nat)
    ensures Sum(rows + [amount]) == Sum(rows) + amount
  {
    assert (rows + [amount])[..|rows|] == rows;
  }

  /** A receipt through the service that meets no other transaction is committed exactly when
      the write-off is executed and the amount is positive and within what is outstanding;
      otherwise nothing is. */
  lemma ServedAlone(s: State, p: nat, amount: nat)
    requires Safe(s) && s.holder == None && PhaseOf(s, p) == Idle
    ensures var served := Step(Step(Step(s, StartReceipt(p, amount), true), ReadOutstanding(p), true),
                               InsertServed(p), true);
      var t := Step(Step(Step(served, LockAnchor(p), true), RunTrigger(p), true), Commit(p), true);
      && t.committed == s.committed + (if s.executed && 0 < amount <= s.total - Sum(s.committed) then [amount] else [])
      && t.holder == None && PhaseOf(t, p) == Idle && t.executed == s.executed && t.total == s.total
  {
    var started := Step(s, StartReceipt(p, amount), true);
    var served := Step(Step(started, ReadOutstanding(p), true), InsertServed(p), true);
    if s.executed && 0 < amount <= s.total - Sum(s.committed) {
      assert started == Move(s, p, Serving(amount, None)).(holder := Some(p));
      assert served == Move(s, p, Inserted([], amount, false, true)).(holder := Some(p));
      TriggerAlone(served, p, amount);
    }
  }

  lemma TriggerAlone(s: State, p: nat, amount: nat)
    requires PhaseOf(s, p).Inserted? && PhaseOf(s, p).rows == [] && PhaseOf(s, p).amount == amount && Free(s, p)
    ensures var t := Step(Step(Step(s, LockAnchor(p), true), RunTrigger(p), true), Commit(p), true);
      && t.committed == s.committed + (if s.executed && amount <= s.total - Sum(s.committed) then [amount] else [])
      && t.holder == None && PhaseOf(t, p) == Idle && t.executed == s.executed && t.total == s.total
  {
    OneMore([], amount);
    assert [] + [amount] == [amount];
  }

  /** ... and so is one inserted directly, on the trigger's word alone. */
  lemma DirectAlone(s: State, p: nat, amount: nat)
    requires Safe(s) && s.holder == None && PhaseOf(s, p) == Idle
    ensures var checked := Step(Step(Step(s, InsertDirect(p, amount), true), LockAnchor(p), true), RunTrigger(p), true);
      var t := Step(checked, Commit(p), true);
      && t.committed == s.committed + (if s.executed && 0 < amount <= s.total - Sum(s.committed) then [amount] else [])
      && t.holder == None && PhaseOf(t, p) == Idle && t.executed == s.executed && t.total == s.total
  {
    if amount > 0 {
      TriggerAlone(Step(s, InsertDirect(p, amount), true), p, amount);
    }
  }

  // ---------------------------------------------------------------------------
  // Without the parent lock
  // ---------------------------------------------------------------------------

  /** Two direct inserts of 60 against a claim of 100, both about to run their triggers. */
  function BothInserted(): State {
    State(true, 100, [], None, map[1 := Inserted([], 60, true, false), 2 := Inserted([], 60, true, false)])
  }

  function BothChecked(): State { State(true, 100, [], None, map[1 := Checked([60]), 2 := Checked([60])]) }

  lemma BothInsert(rest: seq<Event>)
    ensures Run(Start(true, 100),
                [InsertDirect(1, 60), InsertDirect(2, 60)] + ([LockAnchor(1), LockAnchor(2)] + rest), false)
         == Run(BothInserted(), rest, false)
  {
    var s := Start(true, 100);
    var s1 := Step(s, InsertDirect(1, 60), false);
    var s2 := Step(s1, InsertDirect(2, 60), false);
    var s3 := Step(s2, LockAnchor(1), false);
    assert s2.phases == map[1 := Inserted([], 60, false, false), 2 := Inserted([], 60, false, false)];
    assert Step(s3, LockAnchor(2), false).phases == BothInserted().phases;
    Runs.Unrolled2(Under(false), s, InsertDirect(1, 60), InsertDirect(2, 60), [LockAnchor(1), LockAnchor(2)] + rest);
    Runs.Unrolled2(Under(false), s2, LockAnchor(1), LockAnchor(2), rest);
  }

  lemma TriggerPasses(s: State, p: nat)
    requires s.executed && s.committed == [] && s.total == 100 && PhaseOf(s, p) == Inserted([], 60, true, false)
    ensures Step(s, RunTrigger(p), false) == Move(s, p, Checked([60]))
  {
    assert [] + [60] == [60] && [60][..0] == [] && Sum([60]) == 60;
  }

  lemma TwoTriggers(s: State, rest: seq<Event>)
    requires s.executed && s.committed == [] && s.total == 100
    requires PhaseOf(s, 1) == Inserted([], 60, true, false) == PhaseOf(s, 2)
    ensures Run(s, [RunTrigger(1), RunTrigger(2)] + rest, false)
         == Run(Move(Move(s, 1, Checked([60])), 2, Checked([60])), rest, false)
  {
    TriggerPasses(s, 1);
    TriggerPasses(Move(s, 1, Checked([60])), 2);
    Runs.Unrolled2(Under(false), s, RunTrigger(1), RunTrigger(2), rest);
  }

  lemma BothPass(rest: seq<Event>)
    ensures Run(BothInserted(), [RunTrigger(1), RunTrigger(2)] + rest, false) == Run(BothChecked(), rest, false)
  {
    TwoTriggers(BothInserted(), rest);
    assert Move(Move(BothInserted(), 1, Checked([60])), 2, Checked([60])).phases == BothChecked().phases;
  }

  lemma BothCommit()
    ensures Run(BothChecked(), [Commit(1), Commit(2)] + [], false).committed == [60, 60]
  {
    assert [] + [60] + [60] == [60, 60];
    Runs.Unrolled2(Under(false), BothChecked(), Commit(1), Commit(2), []);
  }

  /** Without the parent lock two direct inserts each sum without the other's row: the cap
      of the older trigger does not survive the race. */
  lemma UnlockedTriggerOverRecovers() returns (events: seq<Event>)
    ensures Sum(Run(Start(true, 100), events, false).committed) > 100
  {
    var check := [RunTrigger(1), RunTrigger(2)] + ([Commit(1), Commit(2)] + []);
    events := [InsertDirect(1, 60), InsertDirect(2, 60)] + ([LockAnchor(1), LockAnchor(2)] + check);
    BothInsert(check);
    BothPass([Commit(1), Commit(2)] + []);
    BothCommit();
    assert [60, 60] == [60] + [60] && [60][..0] == [];
    SumConcat([60], [60]);
  }
}
