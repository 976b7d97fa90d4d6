/** Refresh tokens. A login starts a family; rotating a token spends it and adds its
    successor; presenting a spent or expired token revokes the whole family.

    A rotation peeks at the token without a lock to learn its user, locks the user row, reads
    the token again and writes; its writes are seen by others only once it commits. A logout
    takes no user lock: its one UPDATE sees the rows committed when it starts, waits for those
    a rotation holds, and never sees a row committed later. Any number of rotations and
    logouts may be between those steps. */
module Tokens {
  import opened Options
  import Runs

  datatype Status = Active | Rotated | Revoked

  /** `parent` is history: the token this one was rotated from. */
  datatype Token = Token(user: nat, family: nat, status: Status, expires: nat, parent: Option<nat>)

  /** `Written` holds uncommitted writes: a rotation whose successor expires at `issue`, or
      the revocation of the token's family. `Sweeping` is a logout that saw `seen` rows. */
  datatype Phase =
    | Idle
    | Peeked(token: nat, user: nat)
    | Locked(token: nat, user: nat)
    | Written(token: nat, user: nat, issue: Option<nat>)
    | Sweeping(family: nat, seen: nat)
    | Done(issued: Option<nat>)

  /** `tokens` are the committed rows. `dead` records the families a revocation has reached
      in full. */
  datatype State = State(now: nat, ttl: nat, tokens: seq<Token>, families: nat, dead: set<nat>, phases: map<nat, Phase>)

  datatype Event =
    | Tick
    | Login(user: nat)
    | Peek(p: nat, token: nat)
    | Lock(p: nat)
    | Decide(p: nat)
    | Commit(p: nat)
    | Rollback(p: nat)
    | Logout(p: nat, token: nat)
    | Sweep(p: nat)
    | Suspend(user: nat)

  function PhaseOf(s: State, p: nat): Phase { if p in s.phases then s.phases[p] else Idle }

  function Move(s: State, p: nat, phase: Phase): State { s.(phases := s.phases[p := phase]) }

  predicate HoldsUser(phase: Phase) { phase.Locked? || phase.Written? }

  predicate UserFree(s: State, user: nat) {
    forall p | p in s.phases :: !(HoldsUser(s.phases[p]) && s.phases[p].user == user)
  }

  // ---------------------------------------------------------------------------
  // The table
  // ---------------------------------------------------------------------------

  /** Revoke the rows of a family among the first `seen`. */
  function RevokeFamily(tokens: seq<Token>, family: nat, seen: nat): (out: seq<Token>)
    ensures |out| == |tokens|
    ensures forall i | 0 <= i < |out| ::
              out[i] == if i < seen && tokens[i].family == family then tokens[i].(status := Revoked) else tokens[i]
  {
    seq(|tokens|, i requires 0 <= i < |tokens| =>
      if i < seen && tokens[i].family == family then tokens[i].(status := Revoked) else tokens[i])
  }

  function RevokeUser(tokens: seq<Token>, user: nat): (out: seq<Token>)
    ensures |out| == |tokens|
    ensures forall i | 0 <= i < |out| ::
              out[i] == if tokens[i].user == user then tokens[i].(status := Revoked) else tokens[i]
  {
    seq(|tokens|, i requires 0 <= i < |tokens| =>
      if tokens[i].user == user then tokens[i].(status := Revoked) else tokens[i])
  }

  /** Spend the token and append its successor. */
  function Rotation(tokens: seq<Token>, id: nat, expires: nat): seq<Token>
    requires id < |tokens|
  {
    tokens[id := tokens[id].(status := Rotated)]
    + [Token(tokens[id].user, tokens[id].family, Active, expires, Some(id))]
  }

  predicate Rotatable(s: State, id: nat)
    requires id < |s.tokens|
  {
    s.tokens[id].status == Active && s.now < s.tokens[id].expires
  }

  /** The families of a user: all die with a suspension. */
  function FamiliesOf(tokens: seq<Token>, user: nat): set<nat> {
    set t | t in tokens && t.user == user :: t.family
  }

  /** An active row of the family behind the first `seen`. */
  predicate Unseen(tokens: seq<Token>, family: nat, seen: nat) {
    exists i | 0 <= i < |tokens| :: seen <= i && tokens[i].family == family && tokens[i].status == Active
  }

  /** The row lock of a rotation in progress on one of the rows a logout saw. A revocation in
      progress is not waited for, which only adds interleavings. */
  predicate Blocked(s: State, family: nat, seen: nat) {
    exists p | p in s.phases ::
      && s.phases[p].Written? && s.phases[p].issue.Some? && s.phases[p].token < seen
      && s.phases[p].token < |s.tokens| && s.tokens[s.phases[p].token].family == family
  }

  // ---------------------------------------------------------------------------
  // Steps
  // ---------------------------------------------------------------------------

  /** Under the user lock: the token is read again, and the writes are made. */
  function DecideStep(s: State, p: nat, id: nat, user: nat): State {
    if id >= |s.tokens| then Move(s, p, Done(None))
    else if Rotatable(s, id) then Move(s, p, Written(id, user, Some(s.now + s.ttl)))
    else Move(s, p, Written(id, user, None))
  }

  function CommitStep(s: State, p: nat, id: nat, issue: Option<nat>): State {
    if id >= |s.tokens| then Move(s, p, Done(None))
    else match issue
      case Some(expires) => Move(s, p, Done(Some(|s.tokens|))).(tokens := Rotation(s.tokens, id, expires))
      case None =>
        var family := s.tokens[id].family;
        Move(s, p, Done(None)).(tokens := RevokeFamily(s.tokens, family, |s.tokens|), dead := s.dead + {family})
  }

  /** The logout's UPDATE resumes once nobody holds its rows, and commits. */
  function SweepStep(s: State, p: nat, family: nat, seen: nat): State {
    if Blocked(s, family, seen) then s
    else Move(s, p, Done(None)).(tokens := RevokeFamily(s.tokens, family, seen),
                                 dead := if Unseen(s.tokens, family, seen) then s.dead else s.dead + {family})
  }

  function Step(s: State, e: Event): State {
    match e
    case Tick => s.(now := s.now + 1)
    case Login(user) =>
      if !UserFree(s, user) then s
      else s.(tokens := s.tokens + [Token(user, s.families, Active, s.now + s.ttl, None)], families := s.families + 1)
    case Peek(p, id) =>
      if PhaseOf(s, p) != Idle then s
      else if id < |s.tokens| then Move(s, p, Peeked(id, s.tokens[id].user))
      else Move(s, p, Done(None))
    case Lock(p) =>
      var phase := PhaseOf(s, p);
      if phase.Peeked? && UserFree(s, phase.user) then Move(s, p, Locked(phase.token, phase.user)) else s
    case Decide(p) =>
      var phase := PhaseOf(s, p);
      if phase.Locked? then DecideStep(s, p, phase.token, phase.user) else s
    case Commit(p) =>
      var phase := PhaseOf(s, p);
      if phase.Written? then CommitStep(s, p, phase.token, phase.issue) else s
    case Rollback(p) => Move(s, p, Done(None))
    case Logout(p, id) =>
      if PhaseOf(s, p) != Idle then s
      else if id < |s.tokens| then Move(s, p, Sweeping(s.tokens[id].family, |s.tokens|))
      else Move(s, p, Done(None))
    case Sweep(p) =>
      var phase := PhaseOf(s, p);
      if phase.Sweeping? then SweepStep(s, p, phase.family, phase.seen) else s
    case Suspend(user) =>
      if !UserFree(s, user) then s
      else s.(tokens := RevokeUser(s.tokens, user), dead := s.dead + FamiliesOf(s.tokens, user))
  }

  function Run(s: State, events: seq<Event>): State { Runs.Run(Step, s, events) }

  function Start(ttl: nat): State { State(0, ttl, [], 0, {}, map[]) }

  // ---------------------------------------------------------------------------
  // The invariant
  // ---------------------------------------------------------------------------

  /** Only the newest token of a family can be active. */
  ghost predicate NewestOnly(tokens: seq<Token>) {
    forall i, j | 0 <= i < j < |tokens| && tokens[i].family == tokens[j].family :: tokens[i].status != Active
  }

  ghost predicate SpentParent(tokens: seq<Token>, i: nat)
    requires i < |tokens| && tokens[i].parent.Some?
  {
    var k := tokens[i].parent.value;
    k < i && tokens[k].family == tokens[i].family && tokens[k].user == tokens[i].user && tokens[k].status != Active
  }

  /** A parent is an older, spent token of the same family and user, with one successor. */
  ghost predicate Lineage(tokens: seq<Token>) {
    && (forall i | 0 <= i < |tokens| && tokens[i].parent.Some? :: SpentParent(tokens, i))
    && (forall i, j | 0 <= i < j < |tokens| && tokens[i].parent.Some? :: tokens[i].parent != tokens[j].parent)
  }

  ghost predicate DeadStayDead(tokens: seq<Token>, dead: set<nat>) {
    forall i | 0 <= i < |tokens| && tokens[i].family in dead :: tokens[i].status != Active
  }

  ghost predicate Numbered(tokens: seq<Token>, families: nat) {
    forall i | 0 <= i < |tokens| :: tokens[i].family < families
  }

  ghost predicate OneUser(tokens: seq<Token>) {
    forall i, j | 0 <= i < j < |tokens| && tokens[i].family == tokens[j].family :: tokens[i].user == tokens[j].user
  }

  /** A process knows its token's user; a rotation in progress holds an active token. */
  ghost predicate PhaseOk(tokens: seq<Token>, families: nat, phase: Phase) {
    match phase
    case Peeked(id, user) => id < |tokens| && tokens[id].user == user
    case Locked(id, user) => id < |tokens| && tokens[id].user == user
    case Written(id, user, issue) =>
      id < |tokens| && tokens[id].user == user && (issue.Some? ==> tokens[id].status == Active)
    case Sweeping(family, seen) => seen <= |tokens| && family < families
    case _ => true
  }

  /** One process at a time holds a user row. */
  ghost predicate UserLocks(phases: map<nat, Phase>) {
    forall p, q | p in phases && q in phases && p != q && HoldsUser(phases[p]) && HoldsUser(phases[q]) ::
      phases[p].user != phases[q].user
  }

  ghost predicate TableOk(tokens: seq<Token>, families: nat, dead: set<nat>) {
    && NewestOnly(tokens) && Lineage(tokens) && DeadStayDead(tokens, dead) && Numbered(tokens, families)
    && OneUser(tokens) && forall f | f in dead :: f < families
  }

  ghost predicate PhasesOk(s: State) {
    UserLocks(s.phases) && forall p | p in s.phases :: PhaseOk(s.tokens, s.families, s.phases[p])
  }

  ghost predicate Safe(s: State) { TableOk(s.tokens, s.families, s.dead) && PhasesOk(s) }

  // ---------------------------------------------------------------------------
  // Steps that keep it
  // ---------------------------------------------------------------------------

  lemma RotationKeepsNewest(tokens: seq<Token>, id: nat, expires: nat, after: seq<Token>)
    requires NewestOnly(tokens) && id < |tokens| && tokens[id].status == Active
    requires after == Rotation(tokens, id, expires)
    ensures NewestOnly(after)
  {
    var n := |tokens|;
    forall i | 0 <= i < n && after[i].family == after[n].family ensures after[i].status != Active {
      if i != id {
        assert tokens[i].family == tokens[id].family;
      }
    }
  }

  lemma RotationKeepsLineage(tokens: seq<Token>, id: nat, expires: nat, after: seq<Token>)
    requires Lineage(tokens) && id < |tokens| && tokens[id].status == Active && after == Rotation(tokens, id, expires)
    ensures Lineage(after)
  {
    forall i | 0 <= i < |after| && after[i].parent.Some? ensures SpentParent(after, i) {
      if i < |tokens| {
        assert SpentParent(tokens, i);
      }
    }
    forall i | 0 <= i < |tokens| && tokens[i].parent.Some? ensures tokens[i].parent != Some(id) {
      assert SpentParent(tokens, i);
    }
  }

  lemma RotationKeepsRest(tokens: seq<Token>, families: nat, dead: set<nat>, id: nat, expires: nat, after: seq<Token>)
    requires DeadStayDead(tokens, dead) && Numbered(tokens, families) && OneUser(tokens)
    requires id < |tokens| && tokens[id].status == Active && after == Rotation(tokens, id, expires)
    ensures DeadStayDead(after, dead) && Numbered(after, families) && OneUser(after)
  {
  }

  lemma RotationKeeps(tokens: seq<Token>, families: nat, dead: set<nat>, id: nat, expires: nat, after: seq<Token>)
    requires TableOk(tokens, families, dead) && id < |tokens| && tokens[id].status == Active
    requires after == Rotation(tokens, id, expires)
    ensures TableOk(after, families, dead)
  {
    RotationKeepsNewest(tokens, id, expires, after);
    RotationKeepsLineage(tokens, id, expires, after);
    RotationKeepsRest(tokens, families, dead, id, expires, after);
  }

  /** Revoking any set of tokens by status only. */
  ghost predicate OnlyRevoked(before: seq<Token>, after: seq<Token>) {
    |after| == |before|
    && forall i | 0 <= i < |before| :: after[i] == before[i] || after[i] == before[i].(status := Revoked)
  }

  lemma RevocationKeeps(tokens: seq<Token>, families: nat, dead: set<nat>, after: seq<Token>, more: set<nat>)
    requires TableOk(tokens, families, dead) && OnlyRevoked(tokens, after)
    requires DeadStayDead(after, more) && forall f | f in more :: f < families
    ensures TableOk(after, families, more)
  {
    forall i | 0 <= i < |after| && after[i].parent.Some? ensures SpentParent(after, i) {
      assert SpentParent(tokens, i);
    }
  }

  lemma SuspendedFamily(tokens: seq<Token>, user: nat, i: nat)
    requires OneUser(tokens) && i < |tokens| && tokens[i].family in FamiliesOf(tokens, user)
    ensures tokens[i].user == user
  {
    var t :| t in tokens && t.user == user && t.family == tokens[i].family;
    var k :| 0 <= k < |tokens| && tokens[k] == t;
  }

  /** Rows of other users, or rows no rotation holds: what the others know stays true. */
  lemma PhasesStay(s: State, t: State)
    requires PhasesOk(s) && UserLocks(t.phases) && OnlyRevoked(s.tokens, t.tokens) && t.families == s.families
    requires forall p | p in t.phases :: t.phases[p].Done? || (p in s.phases && t.phases[p] == s.phases[p])
    requires forall p | p in t.phases && t.phases[p].Written? && t.phases[p].issue.Some? ::
               t.phases[p].token < |s.tokens| ==> t.tokens[t.phases[p].token] == s.tokens[t.phases[p].token]
    ensures PhasesOk(t)
  {
    forall p | p in t.phases ensures PhaseOk(t.tokens, t.families, t.phases[p]) {
      if !t.phases[p].Done? {
        assert PhaseOk(s.tokens, s.families, s.phases[p]);
      }
    }
  }

  lemma SuspendKeeps(s: State, user: nat)
    requires Safe(s) && UserFree(s, user)
    ensures Safe(Step(s, Suspend(user)))
  {
    var t := Step(s, Suspend(user));
    forall i | 0 <= i < |s.tokens| && s.tokens[i].family in FamiliesOf(s.tokens, user)
      ensures t.tokens[i].status != Active
    {
      SuspendedFamily(s.tokens, user, i);
    }
    RevocationKeeps(s.tokens, s.families, s.dead, t.tokens, t.dead);
    forall p | p in s.phases ensures PhaseOk(s.tokens, s.families, s.phases[p]) {
    }
    PhasesStay(s, t);
  }

  /** The successor's user is held by the rotation, so no other rotation holds its token. */
  lemma CommitKeeps(s: State, p: nat)
    requires Safe(s) && PhaseOf(s, p).Written?
    ensures Safe(Step(s, Commit(p)))
  {
    var t, phase := Step(s, Commit(p)), s.phases[p];
    assert PhaseOk(s.tokens, s.families, phase);
    if phase.issue.Some? {
      RotationKeeps(s.tokens, s.families, s.dead, phase.token, phase.issue.value, t.tokens);
    } else {
      RevocationKeeps(s.tokens, s.families, s.dead, t.tokens, t.dead);
    }
    forall q | q in t.phases ensures PhaseOk(t.tokens, t.families, t.phases[q]) {
      if q != p {
        OthersStay(s, p, q);
      }
    }
  }

  lemma OthersStay(s: State, p: nat, q: nat)
    requires Safe(s) && PhaseOf(s, p).Written? && q in s.phases && q != p
    ensures PhaseOk(Step(s, Commit(p)).tokens, s.families, s.phases[q])
  {
    var phase, other := s.phases[p], s.phases[q];
    assert PhaseOk(s.tokens, s.families, phase) && PhaseOk(s.tokens, s.families, other);
    if other.Written? {
      assert other.user != phase.user;
      assert s.tokens[other.token].family != s.tokens[phase.token].family;
    }
  }

  lemma SweepKeeps(s: State, p: nat)
    requires Safe(s) && PhaseOf(s, p).Sweeping?
    ensures Safe(Step(s, Sweep(p)))
  {
    var t, phase := Step(s, Sweep(p)), s.phases[p];
    assert PhaseOk(s.tokens, s.families, phase);
    if !Blocked(s, phase.family, phase.seen) {
      RevocationKeeps(s.tokens, s.families, s.dead, t.tokens, t.dead);
      PhasesStay(s, t);
    }
  }

  lemma LoginKeeps(s: State, user: nat)
    requires Safe(s)
    ensures Safe(Step(s, Login(user)))
  {
    var t := Step(s, Login(user));
    if UserFree(s, user) {
      forall i | 0 <= i < |t.tokens| && t.tokens[i].parent.Some? ensures SpentParent(t.tokens, i) {
        assert SpentParent(s.tokens, i);
      }
      forall p | p in t.phases ensures PhaseOk(t.tokens, t.families, t.phases[p]) {
        assert PhaseOk(s.tokens, s.families, s.phases[p]);
      }
    }
  }

  /** A process that only moves on: the table stays. */
  lemma MoveKeeps(s: State, p: nat, phase: Phase)
    requires Safe(s) && PhaseOk(s.tokens, s.families, phase)
    requires HoldsUser(phase) ==>
               (HoldsUser(PhaseOf(s, p)) && PhaseOf(s, p).user == phase.user) || UserFree(s, phase.user)
    ensures Safe(Move(s, p, phase))
  {
  }

  lemma DecideKeeps(s: State, p: nat)
    requires Safe(s) && PhaseOf(s, p).Locked?
    ensures Safe(Step(s, Decide(p)))
  {
    assert PhaseOk(s.tokens, s.families, s.phases[p]);
    MoveKeeps(s, p, Step(s, Decide(p)).phases[p]);
  }

  lemma StepKeeps(s: State, e: Event)
    requires Safe(s)
    ensures Safe(Step(s, e))
  {
    if e.Login? {
      LoginKeeps(s, e.user);
    } else if e.Suspend? {
      if UserFree(s, e.user) {
        SuspendKeeps(s, e.user);
      }
    } else if e.Decide? && PhaseOf(s, e.p).Locked? {
      DecideKeeps(s, e.p);
    } else if e.Commit? && PhaseOf(s, e.p).Written? {
      CommitKeeps(s, e.p);
    } else if e.Sweep? && PhaseOf(s, e.p).Sweeping? {
      SweepKeeps(s, e.p);
    } else if e.Lock? && PhaseOf(s, e.p).Peeked? && UserFree(s, PhaseOf(s, e.p).user) {
      assert PhaseOk(s.tokens, s.families, s.phases[e.p]);
      MoveKeeps(s, e.p, Step(s, e).phases[e.p]);
    } else if !e.Tick? && Step(s, e) != s {
      MoveKeeps(s, e.p, Step(s, e).phases[e.p]);
    }
  }

  /** Rows are never removed or re-issued, and a revoked one stays revoked. */
  ghost predicate Grows(s: State, t: State) {
    && s.dead <= t.dead && |s.tokens| <= |t.tokens|
    && forall i | 0 <= i < |s.tokens| ::
         && t.tokens[i].family == s.tokens[i].family && t.tokens[i].parent == s.tokens[i].parent
         && (s.tokens[i].status == Revoked ==> t.tokens[i].status == Revoked)
  }

  lemma StepGrows(s: State, e: Event)
    requires Safe(s)
    ensures Grows(s, Step(s, e))
  {
    if e.Commit? && PhaseOf(s, e.p).Written? {
      assert PhaseOk(s.tokens, s.families, s.phases[e.p]);
    }
  }

  lemma {:induction false} RunKeeps(s: State, events: seq<Event>)
    requires Safe(s)
    ensures Safe(Run(s, events)) && Grows(s, Run(s, events))
    decreases |events|
  {
    if events != [] {
      StepKeeps(s, events[0]);
      StepGrows(s, events[0]);
      RunKeeps(Step(s, events[0]), events[1..]);
    }
  }

  // ---------------------------------------------------------------------------
  // Over all runs
  // ---------------------------------------------------------------------------

  /** At most one active token per family, and at most one successor per token, however
      many rotations of it were in flight. */
  lemma OneActiveOneSuccessor(ttl: nat, events: seq<Event>, i: nat, j: nat)
    ensures var tokens := Run(Start(ttl), events).tokens;
      i < |tokens| && j < |tokens| ==>
        && (tokens[i].family == tokens[j].family && tokens[i].status == Active == tokens[j].status ==> i == j)
        && (tokens[i].parent.Some? && tokens[i].parent == tokens[j].parent ==> i == j)
  {
    RunKeeps(Start(ttl), events);
  }

  /** A family no continuation ever gives an active token again. */
  ghost predicate DeadForGood(s: State, family: nat) {
    forall events, i ::
      0 <= i < |Run(s, events).tokens| && Run(s, events).tokens[i].family == family ==>
        Run(s, events).tokens[i].status != Active
  }

  /** A family that a reuse, an expiry or a suspension has hit never has an active token
      again. */
  lemma RevokedForGood(s: State, family: nat)
    requires Safe(s) && family in s.dead
    ensures DeadForGood(s, family)
  {
    forall events, i | 0 <= i < |Run(s, events).tokens| && Run(s, events).tokens[i].family == family
      ensures Run(s, events).tokens[i].status != Active
    {
      RunKeeps(s, events);
    }
  }

  /** The process takes no further step of its own. */
  ghost predicate Undisturbed(events: seq<Event>, p: nat) {
    forall e | e in events :: e != Commit(p) && e != Rollback(p)
  }

  lemma {:induction false} WrittenStays(s: State, events: seq<Event>, p: nat)
    requires PhaseOf(s, p).Written? && Undisturbed(events, p)
    ensures PhaseOf(Run(s, events), p) == PhaseOf(s, p)
    decreases |events|
  {
    if events != [] {
      assert events[0] in events;
      assert forall e | e in events[1..] :: e in events;
      assert PhaseOf(Step(s, events[0]), p) == PhaseOf(s, p);
      WrittenStays(Step(s, events[0]), events[1..], p);
    }
  }

  /** Exactly the tokens of the family are revoked. */
  ghost predicate FamilyRevoked(before: seq<Token>, family: nat, after: seq<Token>) {
    |after| == |before|
    && forall i | 0 <= i < |before| ::
         after[i] == if before[i].family == family then before[i].(status := Revoked) else before[i]
  }

  /** The token is spent, and one successor for its user and family follows it. */
  ghost predicate Succeeded(before: seq<Token>, id: nat, expires: nat, after: seq<Token>)
    requires id < |before|
  {
    && |after| == |before| + 1 && after[id] == before[id].(status := Rotated)
    && after[|before|] == Token(before[id].user, before[id].family, Active, expires, Some(id))
    && forall i | 0 <= i < |before| && i != id :: after[i] == before[i]
  }

  /** A rotation that reaches its decision issues one successor when its token is still
      active and unexpired then, whatever others do before it commits; otherwise it kills
      the family for good. */
  lemma RotateOrRevoke(s: State, p: nat, between: seq<Event>)
    requires Safe(s) && PhaseOf(s, p).Locked? && Undisturbed(between, p)
    ensures var id := PhaseOf(s, p).token;
      var before := Run(Step(s, Decide(p)), between);
      var after := Step(before, Commit(p));
      && id < |s.tokens| && id < |before.tokens|
      && before.tokens[id].user == s.tokens[id].user && before.tokens[id].family == s.tokens[id].family
      && if s.tokens[id].status == Active && s.now < s.tokens[id].expires
         then PhaseOf(after, p) == Done(Some(|before.tokens|))
              && Succeeded(before.tokens, id, s.now + s.ttl, after.tokens)
         else PhaseOf(after, p) == Done(None) && FamilyRevoked(before.tokens, s.tokens[id].family, after.tokens)
              && DeadForGood(after, s.tokens[id].family)
  {
    assert PhaseOk(s.tokens, s.families, s.phases[p]);
    var id, decided := PhaseOf(s, p).token, Step(s, Decide(p));
    var before := Run(decided, between);
    StepKeeps(s, Decide(p));
    RunKeeps(decided, between);
    WrittenStays(decided, between, p);
    assert PhaseOk(before.tokens, before.families, before.phases[p]);
    StepKeeps(before, Commit(p));
    if !Rotatable(s, id) {
      RevokedForGood(Step(before, Commit(p)), s.tokens[id].family);
    }
  }

  /** A presented token nobody else is working on: unknown, it changes nothing; active and
      unexpired, it is spent for one successor; otherwise its family is revoked. */
  lemma RotationAlone(s: State, p: nat, id: nat)
    requires PhaseOf(s, p) == Idle
    requires id < |s.tokens| ==>
               forall q | q in s.phases && (s.phases[q].Locked? || s.phases[q].Written?) ::
                 s.phases[q].user != s.tokens[id].user
    ensures var t := Step(Step(Step(Step(s, Peek(p, id)), Lock(p)), Decide(p)), Commit(p));
      if id >= |s.tokens| then t.tokens == s.tokens && PhaseOf(t, p) == Done(None)
      else if s.tokens[id].status == Active && s.now < s.tokens[id].expires
      then PhaseOf(t, p) == Done(Some(|s.tokens|)) && Succeeded(s.tokens, id, s.now + s.ttl, t.tokens)
      else PhaseOf(t, p) == Done(None) && FamilyRevoked(s.tokens, s.tokens[id].family, t.tokens)
  {
    var peeked := Step(s, Peek(p, id));
    if id < |s.tokens| {
      assert UserFree(peeked, s.tokens[id].user);
      assert Step(peeked, Lock(p)) == Move(peeked, p, Locked(id, s.tokens[id].user));
    }
  }

  /** A login starts a family of its own; a suspension revokes every token of the user, and
      none of their families comes back. Both wait while a rotation holds the user. */
  lemma LoginAndSuspension(s: State, user: nat)
    requires Safe(s)
    requires forall q | q in s.phases && (s.phases[q].Locked? || s.phases[q].Written?) :: s.phases[q].user != user
    ensures var t := Step(s, Login(user));
      && t.tokens == s.tokens + [Token(user, s.families, Active, s.now + s.ttl, None)]
      && forall i | 0 <= i < |s.tokens| :: s.tokens[i].family != s.families
    ensures var t := Step(s, Suspend(user));
      && |t.tokens| == |s.tokens|
      && (forall i | 0 <= i < |s.tokens| ::
            t.tokens[i] == if s.tokens[i].user == user then s.tokens[i].(status := Revoked) else s.tokens[i])
      && forall i | 0 <= i < |s.tokens| && s.tokens[i].user == user :: DeadForGood(t, s.tokens[i].family)
  {
    assert UserFree(s, user);
    var t := Step(s, Suspend(user));
    StepKeeps(s, Suspend(user));
    forall i | 0 <= i < |s.tokens| && s.tokens[i].user == user ensures DeadForGood(t, s.tokens[i].family) {
      assert s.tokens[i].family in FamiliesOf(s.tokens, user);
      RevokedForGood(t, s.tokens[i].family);
    }
  }

  /** Only a login, a commit, a logout's update and a suspension write to the table. */
  lemma OthersOnlyRead(s: State, e: Event)
    requires e.Tick? || e.Peek? || e.Lock? || e.Decide? || e.Rollback? || e.Logout?
    ensures Step(s, e).tokens == s.tokens && Step(s, e).dead == s.dead
  {
  }

  // ---------------------------------------------------------------------------
  // Logout
  // ---------------------------------------------------------------------------

  /** A logout that gets its rows revokes every token it saw, for good. It ends the family
      exactly when no active token of it was committed after the logout's snapshot; otherwise
      that token is still active. */
  lemma LogoutEndsFamily(s: State, q: nat)
    requires Safe(s) && PhaseOf(s, q).Sweeping? && !Blocked(s, PhaseOf(s, q).family, PhaseOf(s, q).seen)
    ensures var (family, seen) := (PhaseOf(s, q).family, PhaseOf(s, q).seen);
      DeadForGood(Step(s, Sweep(q)), family) <==> !Unseen(s.tokens, family, seen)
  {
    var (family, seen) := (PhaseOf(s, q).family, PhaseOf(s, q).seen);
    var t := Step(s, Sweep(q));
    StepKeeps(s, Sweep(q));
    if Unseen(s.tokens, family, seen) {
      var i :| 0 <= i < |s.tokens| && seen <= i && s.tokens[i].family == family && s.tokens[i].status == Active;
      assert Run(t, []) == t && t.tokens[i] == s.tokens[i];
    } else {
      RevokedForGood(t, family);
    }
  }

  lemma LogoutRevokesWhatItSaw(s: State, q: nat, events: seq<Event>, i: nat)
    requires Safe(s) && PhaseOf(s, q).Sweeping? && !Blocked(s, PhaseOf(s, q).family, PhaseOf(s, q).seen)
    requires i < PhaseOf(s, q).seen && i < |s.tokens| && s.tokens[i].family == PhaseOf(s, q).family
    ensures i < |Run(Step(s, Sweep(q)), events).tokens|
    ensures Run(Step(s, Sweep(q)), events).tokens[i].status == Revoked
  {
    StepKeeps(s, Sweep(q));
    RunKeeps(Step(s, Sweep(q)), events);
  }

  /** Seen from the logout's snapshot: a rotation of the family between its write and its
      commit leaves a live successor behind if it commits, and none if it rolls back. */
  lemma LogoutRace(s: State, p: nat, q: nat, id: nat, commits: bool)
    requires Safe(s) && PhaseOf(s, q) == Idle && id < |s.tokens|
    requires PhaseOf(s, p).Written? && PhaseOf(s, p).issue.Some?
    requires PhaseOf(s, p).token < |s.tokens| && s.tokens[PhaseOf(s, p).token].family == s.tokens[id].family
    ensures var waiting := Step(s, Logout(q, id));
      var resumed := Step(waiting, if commits then Commit(p) else Rollback(p));
      && Step(waiting, Sweep(q)) == waiting
      && (DeadForGood(Step(resumed, Sweep(q)), s.tokens[id].family) <==> !commits)
  {
    var family, n := s.tokens[id].family, |s.tokens|;
    var waiting := Step(s, Logout(q, id));
    var e := if commits then Commit(p) else Rollback(p);
    var resumed := Step(waiting, e);
    assert PhaseOk(s.tokens, s.families, s.phases[p]);
    assert waiting.phases[p] == s.phases[p];
    StepKeeps(s, Logout(q, id));
    StepKeeps(waiting, e);
    OneRotation(waiting, p, family, n, resumed);
    LogoutEndsFamily(resumed, q);
    if commits {
      assert resumed.tokens[n].family == family && resumed.tokens[n].status == Active;
      assert Unseen(resumed.tokens, family, n);
    }
  }

  /** Tokens of one family share a user, so no second rotation holds one of them. */
  lemma OneRotation(s: State, p: nat, family: nat, seen: nat, t: State)
    requires Safe(s) && PhaseOf(s, p).Written? && PhaseOf(s, p).token < |s.tokens|
    requires s.tokens[PhaseOf(s, p).token].family == family && seen <= |s.tokens|
    requires t == Step(s, Commit(p)) || t == Step(s, Rollback(p))
    ensures !Blocked(t, family, seen)
  {
    forall q | q in t.phases && t.phases[q].Written? && t.phases[q].token < seen
      ensures t.tokens[t.phases[q].token].family != family
    {
      assert q != p && s.phases[q] == t.phases[q];
      assert PhaseOk(s.tokens, s.families, s.phases[q]) && PhaseOk(s.tokens, s.families, s.phases[p]);
      assert s.phases[q].user != s.phases[p].user;
    }
  }

  /** With no rotation of the family between write and commit, a logout that goes straight
      through ends it. */
  lemma QuietLogout(s: State, q: nat, id: nat)
    requires Safe(s) && PhaseOf(s, q) == Idle && id < |s.tokens|
    requires forall p | p in s.phases && s.phases[p].Written? && s.phases[p].issue.Some? ::
               s.phases[p].token < |s.tokens| && s.tokens[s.phases[p].token].family != s.tokens[id].family
    ensures var t := Step(Step(s, Logout(q, id)), Sweep(q));
      && FamilyRevoked(s.tokens, s.tokens[id].family, t.tokens)
      && DeadForGood(t, s.tokens[id].family)
  {
    var waiting := Step(s, Logout(q, id));
    StepKeeps(s, Logout(q, id));
    assert forall p | p in waiting.phases && waiting.phases[p].Written? ::
             p in s.phases && s.phases[p] == waiting.phases[p];
    LogoutEndsFamily(waiting, q);
  }

  /** A run on which the successor outlives the logout: the rotation of token 0 has written
      but not committed when the logout of its family starts. */
  lemma LogoutMissesTheSuccessor(ttl: nat) returns (events: seq<Event>)
    requires ttl > 0
    ensures Run(Start(ttl), events).tokens == [Token(7, 0, Revoked, ttl, None), Token(7, 0, Active, ttl, Some(0))]
    ensures PhaseOf(Run(Start(ttl), events), 2) == Done(None)
  {
    var s := State(0, ttl, [Token(7, 0, Active, ttl, None)], 1, {}, map[1 := Written(0, 7, Some(ttl))]);
    var race := [Logout(2, 0)] + ([Commit(1)] + ([Sweep(2)] + []));
    events := [Login(7)] + ([Peek(1, 0)] + ([Lock(1)] + ([Decide(1)] + race)));
    RotationInFlight(ttl, race);
    var waiting := Step(s, Logout(2, 0));
    var resumed := Step(waiting, Commit(1));
    Runs.Unrolled(Step, s, Logout(2, 0), [Commit(1)] + ([Sweep(2)] + []));
    Runs.Unrolled(Step, waiting, Commit(1), [Sweep(2)] + []);
    Runs.Unrolled(Step, resumed, Sweep(2), []);
    assert waiting.phases == map[1 := Written(0, 7, Some(ttl)), 2 := Sweeping(0, 1)];
    assert resumed.phases == map[1 := Done(Some(1)), 2 := Sweeping(0, 1)];
    assert resumed.tokens == [Token(7, 0, Rotated, ttl, None), Token(7, 0, Active, ttl, Some(0))];
  }

  lemma RotationInFlight(ttl: nat, rest: seq<Event>)
    requires ttl > 0
    ensures Run(Start(ttl), [Login(7)] + ([Peek(1, 0)] + ([Lock(1)] + ([Decide(1)] + rest))))
         == Run(State(0, ttl, [Token(7, 0, Active, ttl, None)], 1, {}, map[1 := Written(0, 7, Some(ttl))]), rest)
  {
    var s0 := Start(ttl);
    var s1 := Step(s0, Login(7));
    var s2 := Step(s1, Peek(1, 0));
    var s3 := Step(s2, Lock(1));
    Runs.Unrolled(Step, s0, Login(7), [Peek(1, 0)] + ([Lock(1)] + ([Decide(1)] + rest)));
    Runs.Unrolled(Step, s1, Peek(1, 0), [Lock(1)] + ([Decide(1)] + rest));
    Runs.Unrolled(Step, s2, Lock(1), [Decide(1)] + rest);
    Runs.Unrolled(Step, s3, Decide(1), rest);
    assert s1.tokens == [Token(7, 0, Active, ttl, None)];
    assert s3.phases == map[1 := Locked(0, 7)];
    assert Step(s3, Decide(1)).phases == map[1 := Written(0, 7, Some(ttl))];
  }

  // ---------------------------------------------------------------------------
  // The writer
  // ---------------------------------------------------------------------------

  class TokenTable {
    var tokens: seq<Token>

    constructor ()
      ensures tokens == []
    {
      tokens := [];
    }

    method RevokeAll(family: nat)
      modifies this
      ensures FamilyRevoked(old(tokens), family, tokens)
    {
      for i := 0 to |tokens|
        invariant |tokens| == |old(tokens)|
        invariant tokens == RevokeFamily(old(tokens), family, i)
      {
        if tokens[i].family == family && tokens[i].status != Revoked {
          tokens := tokens[i := tokens[i].(status := Revoked)];
        }
      }
    }

    /** The decision under the user lock: spend and replace, or revoke the family. */
    method Rotate(id: nat, now: nat, ttl: nat) returns (issued: Option<nat>)
      requires id < |tokens|
      modifies this
      ensures var valid := old(tokens[id]).status == Active && now < old(tokens[id]).expires;
        && issued == (if valid then Some(|old(tokens)|) else None)
        && if valid then Succeeded(old(tokens), id, now + ttl, tokens) && tokens == Rotation(old(tokens), id, now + ttl)
           else FamilyRevoked(old(tokens), old(tokens[id]).family, tokens)
    {
      var t := tokens[id];
      if t.status != Active || now >= t.expires {
        RevokeAll(t.family);
        return None;
      }
      issued := Some(|tokens|);
      tokens := tokens[id := t.(status := Rotated)];
      tokens := tokens + [Token(t.user, t.family, Active, now + ttl, Some(id))];
    }
  }
}
