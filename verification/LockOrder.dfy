/** The explicit locks of the correction transactions, in the order the code takes them.
    Locks last to commit. A transaction that cannot be granted its next lock queues for it,
    behind everybody who holds it or queued before in a conflicting mode. */
module LockOrder {
  import opened Options
  import Runs

  datatype Resource =
    | AdjustmentRow(id: nat)
    | WriteOffRow(id: nat)
    | TransactionRow(id: nat)
    | MemberRow(id: nat)
    | LoanRow(id: nat)
    | PeriodBarrier
    | ReferencePrefix(id: nat)

  datatype Mode = Shared | Exclusive

  datatype Request = Request(resource: Resource, mode: Mode)

  function Rank(r: Resource): nat {
    match r
    case AdjustmentRow(_) => 0
    case WriteOffRow(_) => 0
    case TransactionRow(_) => 1
    case MemberRow(_) => 2
    case LoanRow(_) => 3
    case PeriodBarrier => 4
    case ReferencePrefix(_) => 5
  }

  // ---------------------------------------------------------------------------
  // What each transaction locks
  // ---------------------------------------------------------------------------

  datatype Kind =
    | RequestAdjustment(txn: nat, member: nat, loan: nat)
    | ApproveAdjustment(adjustment: nat, txn: nat, member: nat, loan: nat, prefix: nat)
    | RejectAdjustment(adjustment: nat)
    | RequestWriteOff(loan: nat)
    | VoteOrVoid(writeOff: nat)
    | PostWriteOff(writeOff: nat, loan: nat, prefix: nat)
    | RecordReceipt(writeOff: nat, member: nat, loan: nat, prefix: nat)
    | RecordRepayment(loan: nat, prefix: nat)
    | ClosePeriod

  /** A posting: the period barrier shared, the reference sequence, and the barrier again
      from the trigger on the inserted row. */
  function PostingLocks(prefix: nat): seq<Request> {
    [Request(PeriodBarrier, Shared), Request(ReferencePrefix(prefix), Exclusive), Request(PeriodBarrier, Shared)]
  }

  function Plan(k: Kind): seq<Request> {
    match k
    case RequestAdjustment(t, m, l) =>
      [Request(TransactionRow(t), Exclusive), Request(MemberRow(m), Shared), Request(LoanRow(l), Exclusive)]
    case ApproveAdjustment(a, t, m, l, p) =>
      // post_reversal locks the original transaction again before it posts.
      [Request(AdjustmentRow(a), Exclusive), Request(TransactionRow(t), Exclusive), Request(MemberRow(m), Shared),
       Request(LoanRow(l), Exclusive), Request(TransactionRow(t), Exclusive)] + PostingLocks(p)
    case RejectAdjustment(a) => [Request(AdjustmentRow(a), Exclusive)]
    case RequestWriteOff(l) => [Request(LoanRow(l), Exclusive)]
    case VoteOrVoid(w) => [Request(WriteOffRow(w), Exclusive)]
    case PostWriteOff(w, l, p) =>
      [Request(WriteOffRow(w), Exclusive), Request(LoanRow(l), Exclusive)] + PostingLocks(p)
    case RecordReceipt(w, m, l, p) =>
      [Request(WriteOffRow(w), Exclusive), Request(MemberRow(m), Shared), Request(LoanRow(l), Exclusive)]
      + PostingLocks(p) + [Request(WriteOffRow(w), Exclusive)]
    case RecordRepayment(l, p) => [Request(LoanRow(l), Exclusive)] + PostingLocks(p)
    case ClosePeriod => [Request(PeriodBarrier, Exclusive)]
  }

  predicate Conflicts(a: Mode, b: Mode) { a == Exclusive || b == Exclusive }

  /** The plan already holds the lock in a mode that covers the request: no wait. */
  predicate Reentrant(plan: seq<Request>, j: nat)
    requires j < |plan|
  {
    exists k | 0 <= k < j ::
      plan[k].resource == plan[j].resource && (plan[k].mode == Exclusive || plan[j].mode == Shared)
  }

  ghost predicate Ordered(plan: seq<Request>) {
    forall i, j | 0 <= i < j < |plan| :: Rank(plan[i].resource) < Rank(plan[j].resource) || Reentrant(plan, j)
  }

  lemma ApprovalOrdered(plan: seq<Request>, a: nat, t: nat, m: nat, l: nat, p: nat)
    requires plan == Plan(ApproveAdjustment(a, t, m, l, p))
    ensures Ordered(plan)
  {
    assert plan[1].resource == plan[4].resource && Reentrant(plan, 4);
    assert plan[5].resource == plan[7].resource && Reentrant(plan, 7);
  }

  lemma ReceiptOrdered(plan: seq<Request>, w: nat, m: nat, l: nat, p: nat)
    requires plan == Plan(RecordReceipt(w, m, l, p))
    ensures Ordered(plan)
  {
    assert plan[3].resource == plan[5].resource && Reentrant(plan, 5);
    assert plan[0].resource == plan[6].resource && Reentrant(plan, 6);
  }

  lemma PostingOrdered(plan: seq<Request>, w: nat, l: nat, p: nat)
    requires plan == Plan(PostWriteOff(w, l, p))
    ensures Ordered(plan)
  {
    assert plan[2].resource == plan[4].resource && Reentrant(plan, 4);
  }

  /** Every transaction takes its locks in rank order, except those it already holds. */
  lemma PlansAreOrdered(k: Kind)
    ensures Ordered(Plan(k))
  {
    var plan := Plan(k);
    match k
    case ApproveAdjustment(a, t, m, l, p) => ApprovalOrdered(plan, a, t, m, l, p);
    case PostWriteOff(w, l, p) => PostingOrdered(plan, w, l, p);
    case RecordReceipt(w, m, l, p) => ReceiptOrdered(plan, w, m, l, p);
    case RecordRepayment(l, p) =>
      assert plan[1].resource == plan[3].resource && Reentrant(plan, 3);
    case _ =>
  }

  // ---------------------------------------------------------------------------
  // The lock manager
  // ---------------------------------------------------------------------------

  /** `held` locks of the plan are granted; a ticket is a place in the queue for the next. */
  datatype Process = Process(kind: Kind, held: nat, ticket: Option<nat>)

  datatype State = State(processes: map<nat, Process>, tickets: nat)

  datatype Event = Begin(p: nat, kind: Kind) | Ask(p: nat) | Grant(p: nat) | End(p: nat)

  predicate HasNext(x: Process) { x.held < |Plan(x.kind)| }

  predicate Waiting(x: Process) { x.ticket.Some? && HasNext(x) }

  predicate HoldsAgainst(x: Process, r: Request) {
    exists i | 0 <= i < x.held && i < |Plan(x.kind)| ::
      Plan(x.kind)[i].resource == r.resource && Conflicts(Plan(x.kind)[i].mode, r.mode)
  }

  /** `q` stands before `p`: it holds the lock in a conflicting mode, or queued for it first. */
  predicate Blocks(s: State, q: nat, p: nat) {
    && p in s.processes && q in s.processes && p != q && Waiting(s.processes[p])
    && var (x, y) := (s.processes[p], s.processes[q]);
       var r := Plan(x.kind)[x.held];
       || HoldsAgainst(y, r)
       || (Waiting(y) && Plan(y.kind)[y.held].resource == r.resource && y.ticket.value < x.ticket.value
           && Conflicts(Plan(y.kind)[y.held].mode, r.mode))
  }

  predicate Grantable(s: State, p: nat) {
    p in s.processes && Waiting(s.processes[p]) && forall q | q in s.processes :: !Blocks(s, q, p)
  }

  function Step(s: State, e: Event): State {
    match e
    case Begin(p, kind) =>
      if p in s.processes then s else s.(processes := s.processes[p := Process(kind, 0, None)])
    case Ask(p) =>
      if p !in s.processes || s.processes[p].ticket.Some? || !HasNext(s.processes[p]) then s
      else
        var x := s.processes[p];
        if Reentrant(Plan(x.kind), x.held) then s.(processes := s.processes[p := x.(held := x.held + 1)])
        else State(s.processes[p := x.(ticket := Some(s.tickets))], s.tickets + 1)
    case Grant(p) =>
      if !Grantable(s, p) then s
      else
        var x := s.processes[p];
        s.(processes := s.processes[p := x.(held := x.held + 1, ticket := None)])
    case End(p) => s.(processes := s.processes - {p})
  }

  function Run(s: State, events: seq<Event>): State { Runs.Run(Step, s, events) }

  const START := State(map[], 0)

  /** A grant gives the next lock of the plan and takes the ticket away, nothing else. */
  lemma GrantMoves(s: State, p: nat)
    requires p in s.processes && s.processes[p].ticket.Some? && HasNext(s.processes[p])
    requires forall q | q in s.processes && q != p :: !Blocks(s, q, p)
    ensures Step(s, Grant(p)) == s.(processes := s.processes[p := Process(s.processes[p].kind, s.processes[p].held + 1,
                                                                          None)])
  {
  }

  /** A lock nobody holds or queues for is taken at once, with a ticket or, when the plan
      already has it, without. */
  lemma Uncontended(s: State, p: nat)
    requires p in s.processes && s.processes[p].ticket == None && HasNext(s.processes[p])
    requires forall q | q in s.processes && q != p ::
               var (y, r) := (s.processes[q], Plan(s.processes[p].kind)[s.processes[p].held]);
               && (forall i | 0 <= i < y.held && i < |Plan(y.kind)| :: Plan(y.kind)[i].resource != r.resource)
               && (Waiting(y) ==> Plan(y.kind)[y.held].resource != r.resource)
    ensures var x := s.processes[p];
      var t := if Reentrant(Plan(x.kind), x.held) then Step(s, Ask(p)) else Step(Step(s, Ask(p)), Grant(p));
      t.processes == s.processes[p := Process(x.kind, x.held + 1, None)]
  {
    var x := s.processes[p];
    if !Reentrant(Plan(x.kind), x.held) {
      var asked := Step(s, Ask(p));
      assert asked == State(s.processes[p := Process(x.kind, x.held, Some(s.tickets))], s.tickets + 1);
      forall q | q in asked.processes && q != p ensures !Blocks(asked, q, p) {
        assert asked.processes[q] == s.processes[q];
      }
      GrantMoves(asked, p);
    }
  }

  // ---------------------------------------------------------------------------
  // Exclusion
  // ---------------------------------------------------------------------------

  predicate Compatible(a: Request, b: Request) { a.resource == b.resource ==> a.mode == b.mode == Shared }

  /** The locks a transaction has been granted. */
  function Granted(x: Process): seq<Request> {
    if x.held <= |Plan(x.kind)| then Plan(x.kind)[..x.held] else Plan(x.kind)
  }

  ghost predicate Apart(a: seq<Request>, b: seq<Request>) {
    forall i, j | 0 <= i < |a| && 0 <= j < |b| :: Compatible(a[i], b[j])
  }

  /** No two transactions hold one resource in conflicting modes. */
  ghost predicate Excluded(s: State) {
    forall p, q | p in s.processes && q in s.processes && p != q ::
      Apart(Granted(s.processes[p]), Granted(s.processes[q]))
  }

  lemma OneMoreLock(a: seq<Request>, r: Request, b: seq<Request>)
    requires Apart(a, b) && forall j | 0 <= j < |b| :: Compatible(r, b[j])
    ensures Apart(a + [r], b) && Apart(b, a + [r])
  {
  }

  lemma NextLock(x: Process, y: Process)
    requires HasNext(x) && y.kind == x.kind && y.held == x.held + 1
    ensures Granted(y) == Granted(x) + [Plan(x.kind)[x.held]]
  {
  }

  /** Nobody holds anything against a lock that is granted ... */
  lemma NotAgainst(y: Process, r: Request)
    requires !HoldsAgainst(y, r)
    ensures forall j | 0 <= j < |Granted(y)| :: Compatible(r, Granted(y)[j])
  {
    forall j | 0 <= j < |Granted(y)| ensures Compatible(r, Granted(y)[j]) {
      assert Granted(y)[j] == Plan(y.kind)[j];
    }
  }

  /** ... nor against one that the transaction already has. */
  lemma AlreadyHeld(x: Process, b: seq<Request>)
    requires HasNext(x) && Reentrant(Plan(x.kind), x.held) && Apart(Granted(x), b)
    ensures forall j | 0 <= j < |b| :: Compatible(Plan(x.kind)[x.held], b[j])
  {
    var n, plan := x.held, Plan(x.kind);
    var k :|
      0 <= k < n && plan[k].resource == plan[n].resource && (plan[k].mode == Exclusive || plan[n].mode == Shared);
    assert Granted(x)[k] == plan[k];
    forall j | 0 <= j < |b| ensures Compatible(plan[n], b[j]) {
      assert Compatible(Granted(x)[k], b[j]);
    }
  }

  lemma LockExcludes(s: State, p: nat, x: Process, y: Process)
    requires Excluded(s) && p in s.processes && x == s.processes[p] && HasNext(x)
    requires y.kind == x.kind && y.held == x.held + 1
    requires Reentrant(Plan(x.kind), x.held) || Grantable(s, p)
    ensures Excluded(s.(processes := s.processes[p := y]))
  {
    NextLock(x, y);
    var r, t := Plan(x.kind)[x.held], s.(processes := s.processes[p := y]);
    forall q | q in s.processes && q != p
      ensures Apart(Granted(y), Granted(s.processes[q])) && Apart(Granted(s.processes[q]), Granted(y))
    {
      var z := s.processes[q];
      if Reentrant(Plan(x.kind), x.held) {
        AlreadyHeld(x, Granted(z));
      } else {
        assert !Blocks(s, q, p);
        NotAgainst(z, r);
      }
      OneMoreLock(Granted(x), r, Granted(z));
    }
  }

  lemma StepExcludes(s: State, e: Event)
    requires Excluded(s)
    ensures Excluded(Step(s, e))
  {
    var after := Step(s, e);
    if (e.Grant? || e.Ask?) && e.p in s.processes && after.processes[e.p].held != s.processes[e.p].held {
      LockExcludes(s, e.p, s.processes[e.p], after.processes[e.p]);
    } else {
      forall p, q | p in after.processes && q in after.processes && p != q
        ensures Apart(Granted(after.processes[p]), Granted(after.processes[q]))
      {
        SameOrNone(s, e, p);
        SameOrNone(s, e, q);
      }
    }
  }

  lemma SameOrNone(s: State, e: Event, p: nat)
    requires p in Step(s, e).processes
    requires p in s.processes ==> Step(s, e).processes[p].held == s.processes[p].held
    ensures Granted(Step(s, e).processes[p]) == if p in s.processes then Granted(s.processes[p]) else []
  {
  }

  lemma {:induction false} RunExcludes(s: State, events: seq<Event>)
    requires Excluded(s)
    ensures Excluded(Run(s, events))
    decreases |events|
  {
    if events != [] {
      StepExcludes(s, events[0]);
      RunExcludes(Step(s, events[0]), events[1..]);
    }
  }

  /** In every state any number of these transactions can reach, a lock held exclusively is
      held by nobody else in any mode. */
  lemma ExclusiveIsExclusive(events: seq<Event>, p: nat, q: nat, r: Resource, mode: Mode)
    requires p in Run(START, events).processes && q in Run(START, events).processes && p != q
    requires Request(r, Exclusive) in Granted(Run(START, events).processes[p])
    ensures Request(r, mode) !in Granted(Run(START, events).processes[q])
  {
    RunExcludes(START, events);
  }

  /** The transactions that move a loan hold its row exclusively when they end, those that
      decide a claim hold the claim, and postings hold the barrier shared, a close alone. */
  predicate Guards(k: Kind, r: Request) {
    match k
    case RequestAdjustment(t, m, l) =>
      r == Request(TransactionRow(t), Exclusive) || r == Request(LoanRow(l), Exclusive)
    case ApproveAdjustment(a, t, m, l, p) =>
      r == Request(AdjustmentRow(a), Exclusive) || r == Request(LoanRow(l), Exclusive)
      || r == Request(PeriodBarrier, Shared)
    case RejectAdjustment(a) => r == Request(AdjustmentRow(a), Exclusive)
    case RequestWriteOff(l) => r == Request(LoanRow(l), Exclusive)
    case VoteOrVoid(w) => r == Request(WriteOffRow(w), Exclusive)
    case PostWriteOff(w, l, p) =>
      r == Request(WriteOffRow(w), Exclusive) || r == Request(LoanRow(l), Exclusive)
      || r == Request(PeriodBarrier, Shared)
    case RecordReceipt(w, m, l, p) =>
      r == Request(WriteOffRow(w), Exclusive) || r == Request(LoanRow(l), Exclusive)
      || r == Request(PeriodBarrier, Shared)
    case RecordRepayment(l, p) => r == Request(LoanRow(l), Exclusive) || r == Request(PeriodBarrier, Shared)
    case ClosePeriod => r == Request(PeriodBarrier, Exclusive)
  }

  lemma PlansGuard(x: Process, r: Request)
    requires x.held == |Plan(x.kind)| && Guards(x.kind, r)
    ensures r in Granted(x)
  {
    var plan := Plan(x.kind);
    match x.kind {
      case ApproveAdjustment(_, _, _, _, _) => assert plan[0] == r || plan[3] == r || plan[5] == r;
      case PostWriteOff(_, _, _) => assert plan[0] == r || plan[1] == r || plan[2] == r;
      case RecordReceipt(_, _, _, _) => assert plan[0] == r || plan[2] == r || plan[3] == r;
      case RequestAdjustment(_, _, _) => assert plan[0] == r || plan[2] == r;
      case RecordRepayment(_, _) => assert plan[0] == r || plan[1] == r;
      case _ => assert plan[0] == r;
    }
  }

  /** So no two of them that have all their locks work on the same loan or the same claim,
      and none posts beside a close. */
  lemma GuardedApart(events: seq<Event>, p: nat, q: nat, r: Resource, mode: Mode)
    requires p in Run(START, events).processes && q in Run(START, events).processes && p != q
    requires var x := Run(START, events).processes[p];
      x.held == |Plan(x.kind)| && Guards(x.kind, Request(r, Exclusive))
    requires var y := Run(START, events).processes[q]; y.held == |Plan(y.kind)|
    ensures !Guards(Run(START, events).processes[q].kind, Request(r, mode))
  {
    var (x, y) := (Run(START, events).processes[p], Run(START, events).processes[q]);
    PlansGuard(x, Request(r, Exclusive));
    ExclusiveIsExclusive(events, p, q, r, mode);
    if Guards(y.kind, Request(r, mode)) {
      PlansGuard(y, Request(r, mode));
    }
  }

  // ---------------------------------------------------------------------------
  // No wait cycle
  // ---------------------------------------------------------------------------

  ghost predicate ProcessOk(s: State, x: Process) {
    && x.held <= |Plan(x.kind)|
    && (x.ticket.Some? ==> x.ticket.value < s.tickets && HasNext(x) && !Reentrant(Plan(x.kind), x.held))
  }

  ghost predicate Safe(s: State) {
    forall p | p in s.processes :: ProcessOk(s, s.processes[p])
  }

  lemma StepKeeps(s: State, e: Event)
    requires Safe(s)
    ensures Safe(Step(s, e))
  {
    var after := Step(s, e);
    forall p | p in after.processes ensures ProcessOk(after, after.processes[p]) {
      if p in s.processes {
        assert ProcessOk(s, s.processes[p]);
      }
    }
  }

  lemma {:induction false} RunKeeps(s: State, events: seq<Event>)
    requires Safe(s)
    ensures Safe(Run(s, events))
    decreases |events|
  {
    if events != [] {
      StepKeeps(s, events[0]);
      RunKeeps(Step(s, events[0]), events[1..]);
    }
  }

  /** How far along a waiting transaction is: the rank it waits for, then its place. */
  function Stage(x: Process): (nat, nat)
    requires Waiting(x)
  {
    (Rank(Plan(x.kind)[x.held].resource), x.ticket.value)
  }

  /** A later stage: a higher rank, or the same rank with an earlier ticket. */
  predicate Further(a: (nat, nat), b: (nat, nat)) { a.0 < b.0 || (a.0 == b.0 && b.1 < a.1) }

  /** Whoever a transaction waits for, if itself waiting, waits further along. */
  lemma WaitsAscend(s: State, q: nat, p: nat)
    requires Safe(s) && Blocks(s, q, p) && Waiting(s.processes[q])
    ensures Further(Stage(s.processes[p]), Stage(s.processes[q]))
  {
    var x, y := s.processes[p], s.processes[q];
    var r := Plan(x.kind)[x.held];
    assert ProcessOk(s, y);
    PlansAreOrdered(y.kind);
    if HoldsAgainst(y, r) {
      var i :| 0 <= i < y.held && i < |Plan(y.kind)| && Plan(y.kind)[i].resource == r.resource;
      assert Rank(Plan(y.kind)[i].resource) < Rank(Plan(y.kind)[y.held].resource);
    }
  }

  /** A chain of waits: each transaction waits for the next. */
  ghost predicate WaitChain(s: State, chain: seq<nat>) {
    && (forall i | 0 <= i < |chain| :: chain[i] in s.processes && Waiting(s.processes[chain[i]]))
    && (forall i | 0 < i < |chain| :: Blocks(s, chain[i], chain[i - 1]))
  }

  lemma {:induction false} ChainAscends(s: State, chain: seq<nat>, first: nat, last: nat)
    requires Safe(s) && |chain| > 1 && WaitChain(s, chain) && first == chain[0] && last == chain[|chain| - 1]
    ensures Further(Stage(s.processes[first]), Stage(s.processes[last]))
    decreases |chain|
  {
    var n := |chain| - 1;
    WaitsAscend(s, last, chain[n - 1]);
    if n > 1 {
      ChainAscends(s, chain[..n], first, chain[n - 1]);
    }
  }

  /** In every state any number of these transactions can reach, no chain of waits closes
      on itself. */
  lemma NoWaitCycle(events: seq<Event>, chain: seq<nat>)
    requires |chain| > 1 && WaitChain(Run(START, events), chain)
    ensures chain[0] != chain[|chain| - 1]
  {
    RunKeeps(START, events);
    ChainAscends(Run(START, events), chain, chain[0], chain[|chain| - 1]);
  }

  /** And nobody waits for nothing: behind every waiting transaction there is one that can
      be granted its lock now, or that waits only for running transactions. */
  lemma SomebodyMoves(s: State, p: nat) returns (q: nat)
    requires Safe(s) && p in s.processes && Waiting(s.processes[p])
    ensures q in s.processes && Waiting(s.processes[q])
    ensures forall b | b in s.processes && Blocks(s, b, q) :: !Waiting(s.processes[b])
    decreases 5 - Stage(s.processes[p]).0, Stage(s.processes[p]).1
  {
    if b :| b in s.processes && Blocks(s, b, p) && Waiting(s.processes[b]) {
      WaitsAscend(s, b, p);
      q := SomebodyMoves(s, b);
    } else {
      q := p;
    }
  }

  /** So when every live transaction is waiting, one of them is granted its lock. */
  lemma NeverStuck(events: seq<Event>, p: nat) returns (q: nat)
    requires p in Run(START, events).processes
    requires forall b | b in Run(START, events).processes :: Waiting(Run(START, events).processes[b])
    ensures Grantable(Run(START, events), q)
  {
    RunKeeps(START, events);
    q := SomebodyMoves(Run(START, events), p);
  }
}
