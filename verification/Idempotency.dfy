/** One storage key of the idempotency table and every request that presents it. The claim,
    the replay lookup, the store and the release are separate statements, the handler runs
    in between, and now() is the instant the request's transaction began. */
module Idempotency {
  import opened Options
  import Runs

  /** The stored row. `epoch` counts claims: it is history, not a column. */
  datatype Row = Row(hash: nat, response: Option<nat>, expires: nat, epoch: nat)

  /** How a request ended. A replay remembers the epoch whose response it returned, and the
      instant it asked. */
  datatype Outcome = Answered | Failed | Crashed | Conflict | Replayed(response: nat, epoch: nat, at: nat)

  datatype Phase =
    | Absent
    | Claiming(hash: nat, at: nat)
    | Looking(hash: nat, at: nat)
    | Running(hash: nat, epoch: nat, expires: nat)
    | Finished(hash: nat, epoch: nat, expires: nat, result: Option<nat>)
    | Done(hash: nat, outcome: Outcome)

  datatype Claim = Claim(request: nat, hash: nat, expires: nat)

  datatype Stored = Stored(epoch: nat, request: nat, hash: nat, response: nat)

  /** `claims` and `log` record who claimed each epoch and what was stored; `window` is the
      retention. */
  datatype State = State(now: nat, window: nat, row: Option<Row>, phases: map<nat, Phase>, claims: seq<Claim>,
                         log: seq<Stored>)

  datatype Event =
    | Tick
    | Arrive(r: nat, hash: nat)
    | TryClaim(r: nat)
    | Lookup(r: nat)
    | Finish(r: nat, result: Option<nat>)  // Some: an outcome below 500; None: a 5xx or an exception
    | Settle(r: nat)                       // store the outcome, or release the claim
    | Crash(r: nat)
    | Purge

  function PhaseOf(s: State, r: nat): Phase { if r in s.phases then s.phases[r] else Absent }

  function Move(s: State, r: nat, phase: Phase): State { s.(phases := s.phases[r := phase]) }

  predicate Holds(phase: Phase) { phase.Running? || phase.Finished? }

  // ---------------------------------------------------------------------------
  // The statements
  // ---------------------------------------------------------------------------

  /** The claim wins on a missing or an expired row. */
  predicate Claimable(row: Option<Row>, at: nat) { row == None || row.value.expires <= at }

  /** The pin of store and release: the caller's own hash, still in flight. */
  predicate Pinned(row: Option<Row>, hash: nat) { row.Some? && row.value.hash == hash && row.value.response == None }

  function StoreRow(row: Option<Row>, hash: nat, response: nat): Option<Row> {
    if Pinned(row, hash) then Some(row.value.(response := Some(response))) else row
  }

  function ReleaseRow(row: Option<Row>, hash: nat): Option<Row> { if Pinned(row, hash) then None else row }

  function PurgeRow(row: Option<Row>, now: nat): Option<Row> {
    if row.Some? && row.value.expires <= now then None else row
  }

  function LookupOutcome(row: Option<Row>, hash: nat, at: nat): Outcome {
    if row.Some? && row.value.expires > at && row.value.hash == hash && row.value.response.Some?
    then Replayed(row.value.response.value, row.value.epoch, at) else Conflict
  }

  function ClaimStep(s: State, r: nat, hash: nat, at: nat): State {
    if !Claimable(s.row, at) then Move(s, r, Looking(hash, at))
    else
      var epoch := |s.claims|;
      Move(s, r, Running(hash, epoch, at + s.window))
        .(row := Some(Row(hash, None, at + s.window, epoch)), claims := s.claims + [Claim(r, hash, at + s.window)])
  }

  function SettleStep(s: State, r: nat, hash: nat, result: Option<nat>): State {
    match result
    case None => Move(s, r, Done(hash, Failed)).(row := ReleaseRow(s.row, hash))
    case Some(response) =>
      var log := if Pinned(s.row, hash) then s.log + [Stored(s.row.value.epoch, r, hash, response)] else s.log;
      Move(s, r, Done(hash, Answered)).(row := StoreRow(s.row, hash, response), log := log)
  }

  function Step(s: State, e: Event): State {
    match e
    case Tick => s.(now := s.now + 1)
    case Arrive(r, hash) => if PhaseOf(s, r) == Absent then Move(s, r, Claiming(hash, s.now)) else s
    case TryClaim(r) =>
      var phase := PhaseOf(s, r);
      if phase.Claiming? then ClaimStep(s, r, phase.hash, phase.at) else s
    case Lookup(r) =>
      var phase := PhaseOf(s, r);
      if phase.Looking? then Move(s, r, Done(phase.hash, LookupOutcome(s.row, phase.hash, phase.at))) else s
    case Finish(r, result) =>
      var phase := PhaseOf(s, r);
      if phase.Running? then Move(s, r, Finished(phase.hash, phase.epoch, phase.expires, result)) else s
    case Settle(r) =>
      var phase := PhaseOf(s, r);
      if phase.Finished? then SettleStep(s, r, phase.hash, phase.result) else s
    case Crash(r) =>
      var phase := PhaseOf(s, r);
      if Holds(phase) then Move(s, r, Done(phase.hash, Crashed)) else s
    case Purge => s.(row := PurgeRow(s.row, s.now))
  }

  function Run(s: State, events: seq<Event>): State { Runs.Run(Step, s, events) }

  function Start(window: nat): State { State(0, window, None, map[], [], []) }

  /** No live handler outlives its retention window. */
  ghost predicate Timely(s: State) {
    forall r | r in s.phases && Holds(s.phases[r]) :: s.now < s.phases[r].expires
  }

  ghost predicate TimelyRun(s: State, events: seq<Event>)
    decreases |events|
  {
    Timely(s) && (events == [] || TimelyRun(Step(s, events[0]), events[1..]))
  }

  // ---------------------------------------------------------------------------
  // On every run: what is replayed
  // ---------------------------------------------------------------------------

  ghost predicate Logged(log: seq<Stored>, hash: nat, response: nat, epoch: nat) {
    exists k | 0 <= k < |log| :: log[k].hash == hash && log[k].response == response && log[k].epoch == epoch
  }

  /** The row is the latest epoch some request claimed, for its hash and window. */
  ghost predicate RowClaimed(s: State) {
    s.row.Some? ==>
      && s.row.value.epoch < |s.claims|
      && s.claims[s.row.value.epoch].hash == s.row.value.hash
      && s.claims[s.row.value.epoch].expires == s.row.value.expires
  }

  ghost predicate RowLogged(s: State) {
    s.row.Some? && s.row.value.response.Some? ==>
      Logged(s.log, s.row.value.hash, s.row.value.response.value, s.row.value.epoch)
  }

  /** A replay returned a response stored for its own hash, from an epoch still live at its
      instant. */
  ghost predicate OutcomeLogged(s: State, phase: Phase) {
    phase.Done? && phase.outcome.Replayed? ==>
      && Logged(s.log, phase.hash, phase.outcome.response, phase.outcome.epoch)
      && phase.outcome.epoch < |s.claims| && phase.outcome.at < s.claims[phase.outcome.epoch].expires
  }

  ghost predicate ReplaysLogged(s: State) {
    RowClaimed(s) && RowLogged(s) && forall r | r in s.phases :: OutcomeLogged(s, s.phases[r])
  }

  lemma LoggedGrows(log: seq<Stored>, x: Stored, hash: nat, response: nat, epoch: nat)
    ensures Logged(log, hash, response, epoch) ==> Logged(log + [x], hash, response, epoch)
    ensures Logged(log + [x], x.hash, x.response, x.epoch)
  {
    var more := log + [x];
    assert more[|log|] == x;
    if Logged(log, hash, response, epoch) {
      var k :| 0 <= k < |log| && log[k].hash == hash && log[k].response == response && log[k].epoch == epoch;
      assert more[k] == log[k];
    }
  }

  lemma StoreKeepsReplays(s: State, r: nat)
    requires ReplaysLogged(s) && PhaseOf(s, r).Finished? && PhaseOf(s, r).result.Some?
    ensures ReplaysLogged(Step(s, Settle(r)))
  {
    var phase := PhaseOf(s, r);
    var after := Step(s, Settle(r));
    if Pinned(s.row, phase.hash) {
      var x := Stored(s.row.value.epoch, r, phase.hash, phase.result.value);
      LoggedGrows(s.log, x, 0, 0, 0);
      forall q | q in after.phases ensures OutcomeLogged(after, after.phases[q]) {
        if q != r && s.phases[q].Done? && s.phases[q].outcome.Replayed? {
          assert OutcomeLogged(s, s.phases[q]);
          LoggedGrows(s.log, x, s.phases[q].hash, s.phases[q].outcome.response, s.phases[q].outcome.epoch);
        }
      }
    }
  }

  lemma ClaimKeepsReplays(s: State, r: nat)
    requires ReplaysLogged(s) && PhaseOf(s, r).Claiming?
    ensures ReplaysLogged(Step(s, TryClaim(r)))
  {
    var after := Step(s, TryClaim(r));
    forall q | q in after.phases ensures OutcomeLogged(after, after.phases[q]) {
      if q != r {
        assert OutcomeLogged(s, s.phases[q]);
      }
    }
  }

  /** Whatever the timing, a replay returns a response that a request with the same hash
      stored, in an epoch still live at its instant. */
  lemma StepKeepsReplays(s: State, e: Event)
    requires ReplaysLogged(s)
    ensures ReplaysLogged(Step(s, e))
  {
    if e.Settle? && PhaseOf(s, e.r).Finished? && PhaseOf(s, e.r).result.Some? {
      StoreKeepsReplays(s, e.r);
    } else if e.TryClaim? && PhaseOf(s, e.r).Claiming? {
      ClaimKeepsReplays(s, e.r);
    }
  }

  lemma {:induction false} ReplaysComeFromTheSameHash(s: State, events: seq<Event>)
    requires ReplaysLogged(s)
    ensures ReplaysLogged(Run(s, events))
    decreases |events|
  {
    if events != [] {
      StepKeepsReplays(s, events[0]);
      ReplaysComeFromTheSameHash(Step(s, events[0]), events[1..]);
    }
  }

  // ---------------------------------------------------------------------------
  // On timely runs: one holder, one outcome per epoch
  // ---------------------------------------------------------------------------

  ghost predicate Owns(s: State, r: nat, phase: Phase)
    requires Holds(phase)
  {
    && s.row == Some(Row(phase.hash, None, phase.expires, phase.epoch))
    && phase.epoch < |s.claims| && s.claims[phase.epoch] == Claim(r, phase.hash, phase.expires)
  }

  ghost predicate PhaseOk(s: State, r: nat, phase: Phase) {
    && (Holds(phase) ==> Owns(s, r, phase))
    && (phase.Claiming? || phase.Looking? ==> phase.at <= s.now)
  }

  /** Each stored outcome belongs to the request that claimed its epoch; an epoch in flight
      has stored nothing yet. */
  ghost predicate LogOk(s: State) {
    && (forall k | 0 <= k < |s.log| ::
          && s.log[k].epoch < |s.claims|
          && s.claims[s.log[k].epoch].request == s.log[k].request && s.claims[s.log[k].epoch].hash == s.log[k].hash)
    && (forall j, k | 0 <= j < k < |s.log| :: s.log[j].epoch != s.log[k].epoch)
    && (s.row.Some? ==> s.row.value.epoch < |s.claims|)
    && (s.row.Some? && s.row.value.response == None ==>
          forall k | 0 <= k < |s.log| :: s.log[k].epoch != s.row.value.epoch)
  }

  ghost predicate Exclusive(s: State) {
    LogOk(s) && forall r | r in s.phases :: PhaseOk(s, r, s.phases[r])
  }

  lemma ClaimKeeps(s: State, r: nat)
    requires Exclusive(s) && Timely(s) && PhaseOf(s, r).Claiming?
    ensures Exclusive(Step(s, TryClaim(r)))
  {
    var after := Step(s, TryClaim(r));
    assert PhaseOk(s, r, s.phases[r]);
    forall q | q in after.phases ensures PhaseOk(after, q, after.phases[q]) {
      if q != r {
        assert PhaseOk(s, q, s.phases[q]);
      }
    }
  }

  lemma SettleKeeps(s: State, r: nat)
    requires Exclusive(s) && PhaseOf(s, r).Finished?
    ensures Exclusive(Step(s, Settle(r)))
  {
    var after := Step(s, Settle(r));
    assert PhaseOk(s, r, s.phases[r]);
    forall q | q in after.phases ensures PhaseOk(after, q, after.phases[q]) {
      if q != r {
        assert PhaseOk(s, q, s.phases[q]);
      }
    }
  }

  lemma StepKeeps(s: State, e: Event)
    requires Exclusive(s) && Timely(s)
    ensures Exclusive(Step(s, e))
  {
    var after := Step(s, e);
    if e.TryClaim? && PhaseOf(s, e.r).Claiming? {
      ClaimKeeps(s, e.r);
    } else if e.Settle? && PhaseOf(s, e.r).Finished? {
      SettleKeeps(s, e.r);
    } else {
      forall q | q in after.phases ensures PhaseOk(after, q, after.phases[q]) {
        if q in s.phases {
          assert PhaseOk(s, q, s.phases[q]);
        }
      }
    }
  }

  lemma {:induction false} TimelyRunsAreExclusive(s: State, events: seq<Event>)
    requires Exclusive(s) && TimelyRun(s, events)
    ensures Exclusive(Run(s, events))
    decreases |events|
  {
    if events != [] {
      StepKeeps(s, events[0]);
      TimelyRunsAreExclusive(Step(s, events[0]), events[1..]);
    }
  }

  /** No holder outlives its window: then at most one request holds the claim at any time,
      at most one outcome is stored per epoch, and a replay returns what the claimer of its
      epoch, a request with the same hash, stored, while that epoch was live. */
  lemma OneEffectPerEpoch(window: nat, events: seq<Event>, r: nat, q: nat)
    requires TimelyRun(Start(window), events)
    ensures var s := Run(Start(window), events);
      && (Holds(PhaseOf(s, r)) && Holds(PhaseOf(s, q)) ==> r == q)
      && (forall j, k | 0 <= j < k < |s.log| :: s.log[j].epoch != s.log[k].epoch)
      && (PhaseOf(s, r).Done? && PhaseOf(s, r).outcome.Replayed? ==>
            var (hash, outcome) := (PhaseOf(s, r).hash, PhaseOf(s, r).outcome);
            var (response, epoch) := (outcome.response, outcome.epoch);
            epoch < |s.claims| && s.claims[epoch].hash == hash && PhaseOf(s, r).outcome.at < s.claims[epoch].expires
            && Stored(epoch, s.claims[epoch].request, hash, response) in s.log)
  {
    var s := Run(Start(window), events);
    TimelyRunsAreExclusive(Start(window), events);
    ReplaysComeFromTheSameHash(Start(window), events);
    if Holds(PhaseOf(s, r)) && Holds(PhaseOf(s, q)) {
      assert PhaseOk(s, r, s.phases[r]) && PhaseOk(s, q, s.phases[q]);
    }
    if PhaseOf(s, r).Done? && PhaseOf(s, r).outcome.Replayed? {
      assert OutcomeLogged(s, s.phases[r]);
      var k :| 0 <= k < |s.log| && s.log[k].hash == s.phases[r].hash
               && s.log[k].response == s.phases[r].outcome.response && s.log[k].epoch == s.phases[r].outcome.epoch;
      assert s.log[k] == Stored(s.log[k].epoch, s.claims[s.log[k].epoch].request, s.phases[r].hash, s.log[k].response);
    }
  }

  /** While its window lasts, a finished request's outcome always reaches its own row, and
      a failed one always frees it. */
  lemma SettleLands(s: State, r: nat)
    requires Exclusive(s) && PhaseOf(s, r).Finished?
    ensures var (phase, row) := (PhaseOf(s, r), Step(s, Settle(r)).row);
      row == if phase.result == None then None else Some(Row(phase.hash, phase.result, phase.expires, phase.epoch))
  {
    assert PhaseOk(s, r, s.phases[r]);
  }

  // ---------------------------------------------------------------------------
  // What must be replayed
  // ---------------------------------------------------------------------------

  lemma StepKeepsClaims(s: State, e: Event)
    ensures s.claims <= Step(s, e).claims
  {
  }

  lemma {:induction false} RunKeepsClaims(s: State, events: seq<Event>)
    ensures s.claims <= Run(s, events).claims
    decreases |events|
  {
    if events != [] {
      StepKeepsClaims(s, events[0]);
      RunKeepsClaims(Step(s, events[0]), events[1..]);
    }
  }

  /** The row that answers the key, or nothing once it has expired. */
  predicate Answers(s: State, stored: Row) {
    s.row == Some(stored) || (s.row == None && stored.expires <= s.now)
  }

  /** Until the key is claimed again a stored response stays, whoever settles, fails or
      crashes, and however late: only the purge of an expired row removes it. */
  lemma {:induction false} StoredStays(s: State, events: seq<Event>, stored: Row)
    requires Answers(s, stored) && stored.response.Some? && |Run(s, events).claims| == |s.claims|
    ensures Answers(Run(s, events), stored)
    decreases |events|
  {
    if events != [] {
      StepKeepsClaims(s, events[0]);
      RunKeepsClaims(Step(s, events[0]), events[1..]);
      StoredStays(Step(s, events[0]), events[1..], stored);
    }
  }

  /** On a timely run request `r` ended with an outcome below 500. From then on, whatever
      happens short of a new claim, a lookup with the same hash is answered with that very
      response while the row is there, and the row is there until its expiry has passed; a
      lookup with another hash, or of a purged row, is a conflict. */
  lemma RetriesAreReplayed(window: nat, before: seq<Event>, r: nat, later: seq<Event>, q: nat)
    requires TimelyRun(Start(window), before)
    requires PhaseOf(Run(Start(window), before), r).Finished? && PhaseOf(Run(Start(window), before), r).result.Some?
    requires var s := Step(Run(Start(window), before), Settle(r));
      |Run(s, later).claims| == |s.claims| && PhaseOf(Run(s, later), q).Looking?
    ensures var ended := PhaseOf(Run(Start(window), before), r);
      var t := Run(Step(Run(Start(window), before), Settle(r)), later);
      var (asked, answer) := (PhaseOf(t, q), PhaseOf(Step(t, Lookup(q)), q));
      && answer == Done(asked.hash,
           if t.row.Some? && asked.hash == ended.hash && asked.at < ended.expires
           then Replayed(ended.result.value, ended.epoch, asked.at) else Conflict)
      && (t.now < ended.expires ==> t.row.Some?)
  {
    var s := Run(Start(window), before);
    var ended := PhaseOf(s, r);
    TimelyRunsAreExclusive(Start(window), before);
    SettleLands(s, r);
    StoredStays(Step(s, Settle(r)), later, Row(ended.hash, ended.result, ended.expires, ended.epoch));
  }

  /** A request that meets no other on its way: it runs on a missing or expired row, under
      its own hash and window; otherwise it gets the stored response exactly when it brings
      the same hash and there is one, and leaves the row alone. */
  lemma OneRequest(s: State, q: nat, hash: nat)
    requires PhaseOf(s, q) == Absent
    ensures var claimed := Step(Step(s, Arrive(q, hash)), TryClaim(q));
      var asked := Step(claimed, Lookup(q));
      if s.row.Some? && s.now < s.row.value.expires then
        && PhaseOf(claimed, q) == Looking(hash, s.now) && asked.row == s.row && asked.claims == s.claims
        && PhaseOf(asked, q) == Done(hash,
             if hash == s.row.value.hash && s.row.value.response.Some?
             then Replayed(s.row.value.response.value, s.row.value.epoch, s.now) else Conflict)
      else
        && PhaseOf(claimed, q) == Running(hash, |s.claims|, s.now + s.window)
        && claimed.row == Some(Row(hash, None, s.now + s.window, |s.claims|))
        && claimed.claims == s.claims + [Claim(q, hash, s.now + s.window)]
  {
  }

  /** The purge removes the row exactly once its expiry has passed, and nothing else. */
  lemma PurgeTakesTheExpired(s: State)
    ensures Step(s, Purge).row == None <==> s.row == None || s.row.value.expires <= s.now
    ensures Step(s, Purge).row.Some? ==> Step(s, Purge) == s
    ensures Step(s, Purge).(row := s.row) == s
  {
  }

  // ---------------------------------------------------------------------------
  // Outlived writers
  // ---------------------------------------------------------------------------

  /** In any state, however late, a store or release touches the row exactly when the row
      carries the writer's own hash and no response yet: never a successor with another
      hash, and never a stored response. */
  lemma LateSettle(s: State, r: nat)
    requires PhaseOf(s, r).Finished?
    ensures Step(s, Settle(r)).row != s.row <==>
              s.row.Some? && s.row.value.hash == PhaseOf(s, r).hash && s.row.value.response == None
    ensures Step(s, Settle(r)).log != s.log <==> Step(s, Settle(r)).row != s.row && PhaseOf(s, r).result.Some?
  {
  }

  /** Request 1 has outlived its window of one tick; a retry with the same hash took over. */
  function Outlived(): State {
    State(1, 1, Some(Row(5, None, 2, 1)), map[1 := Running(5, 0, 1), 2 := Running(5, 1, 2)],
          [Claim(1, 5, 1), Claim(2, 5, 2)], [])
  }

  lemma TakeOver(rest: seq<Event>)
    ensures Run(Start(1), [Arrive(1, 5), TryClaim(1)] + ([Tick, Arrive(2, 5)] + ([TryClaim(2)] + rest)))
         == Run(Outlived(), rest)
  {
    var s := Start(1);
    var s2 := Step(Step(s, Arrive(1, 5)), TryClaim(1));
    assert s2 == State(0, 1, Some(Row(5, None, 1, 0)), map[1 := Running(5, 0, 1)], [Claim(1, 5, 1)], []);
    var s4 := Step(Step(s2, Tick), Arrive(2, 5));
    Runs.Unrolled2(Step, s, Arrive(1, 5), TryClaim(1), [Tick, Arrive(2, 5)] + ([TryClaim(2)] + rest));
    Runs.Unrolled2(Step, s2, Tick, Arrive(2, 5), [TryClaim(2)] + rest);
    Runs.Unrolled(Step, s4, TryClaim(2), rest);
    assert [Claim(1, 5, 1)] + [Claim(2, 5, 2)] == [Claim(1, 5, 1), Claim(2, 5, 2)];
    assert Step(s4, TryClaim(2)).phases == Outlived().phases;
    assert Step(s4, TryClaim(2)) == Outlived();
  }

  /** A same-hash successor still in flight is not protected. A late failure deletes its
      claim, and a third request then runs beside it. */
  lemma LateReleaseAdmitsASecondHolder() returns (events: seq<Event>)
    ensures var s := Run(Start(1), events);
      Holds(PhaseOf(s, 2)) && Holds(PhaseOf(s, 3)) && s.now < PhaseOf(s, 2).expires && s.now < PhaseOf(s, 3).expires
  {
    var late := [Finish(1, None), Settle(1)] + ([Arrive(3, 5), TryClaim(3)] + []);
    events := [Arrive(1, 5), TryClaim(1)] + ([Tick, Arrive(2, 5)] + ([TryClaim(2)] + late));
    TakeOver(late);
    var s := Step(Step(Outlived(), Finish(1, None)), Settle(1));
    Runs.Unrolled2(Step, Outlived(), Finish(1, None), Settle(1), [Arrive(3, 5), TryClaim(3)] + []);
    Runs.Unrolled2(Step, s, Arrive(3, 5), TryClaim(3), []);
  }

  /** ... and a late success stores its response in the successor's epoch, so the response
      the successor produces is the one that is dropped. */
  lemma LateStoreFillsTheSuccessor() returns (events: seq<Event>)
    ensures var s := Run(Start(1), events);
      && s.log == [Stored(1, 1, 5, 200)] && s.claims == [Claim(1, 5, 1), Claim(2, 5, 2)]
      && s.row.Some? && s.row.value.response == Some(200) && PhaseOf(s, 2) == Done(5, Answered)
  {
    var late := [Finish(1, Some(200)), Settle(1)] + ([Finish(2, Some(201)), Settle(2)] + []);
    events := [Arrive(1, 5), TryClaim(1)] + ([Tick, Arrive(2, 5)] + ([TryClaim(2)] + late));
    TakeOver(late);
    assert [] + [Stored(1, 1, 5, 200)] == [Stored(1, 1, 5, 200)];
    var s := Step(Step(Outlived(), Finish(1, Some(200))), Settle(1));
    Runs.Unrolled2(Step, Outlived(), Finish(1, Some(200)), Settle(1), [Finish(2, Some(201)), Settle(2)] + []);
    Runs.Unrolled2(Step, s, Finish(2, Some(201)), Settle(2), []);
  }

  // ---------------------------------------------------------------------------
  // The middleware
  // ---------------------------------------------------------------------------

  /** What becomes of the key when a request tries to claim it. */
  lemma ClaimAlone(s: State, r: nat)
    requires ReplaysLogged(s) && PhaseOf(s, r).Claiming?
    ensures var t := Step(s, TryClaim(r));
      && ReplaysLogged(t)
      && (Exclusive(s) && Timely(s) ==>
            Exclusive(t) && (Holds(PhaseOf(t, r)) ==> forall q :: Holds(PhaseOf(t, q)) <==> q == r))
  {
    var t := Step(s, TryClaim(r));
    StepKeepsReplays(s, TryClaim(r));
    if Exclusive(s) && Timely(s) {
      ClaimKeeps(s, r);
      if Holds(PhaseOf(t, r)) {
        forall q | Holds(PhaseOf(t, q)) ensures q == r {
          assert PhaseOk(t, q, t.phases[q]) && PhaseOk(t, r, t.phases[r]);
        }
      }
    }
  }

  /** What becomes of the key when a handler ends and its outcome is settled at once. */
  lemma EndKeeps(s: State, r: nat, result: Option<nat>)
    requires ReplaysLogged(s) && PhaseOf(s, r).Running?
    ensures var (phase, t) := (PhaseOf(s, r), Step(Step(s, Finish(r, result)), Settle(r)));
      && ReplaysLogged(t)
      && t.phases == s.phases[r := Done(phase.hash, if result == None then Failed else Answered)]
      && (Exclusive(s) && Timely(s) ==>
            && Exclusive(t)
            && t.row == if result == None then None else Some(Row(phase.hash, result, phase.expires, phase.epoch)))
  {
    var finished := Step(s, Finish(r, result));
    StepKeepsReplays(s, Finish(r, result));
    StepKeepsReplays(finished, Settle(r));
    if Exclusive(s) && Timely(s) {
      StepKeeps(s, Finish(r, result));
      SettleKeeps(finished, r);
      SettleLands(finished, r);
    }
  }

  /** The key's row and the requests that present it, one method a statement. */
  class Middleware {
    const window: nat
    var now: nat
    var row: Option<Row>
    var phases: map<nat, Phase>
    var claims: seq<Claim>
    var log: seq<Stored>

    function Snapshot(): State
      reads this
    {
      State(now, window, row, phases, claims, log)
    }

    ghost predicate Valid()
      reads this
    {
      ReplaysLogged(Snapshot())
    }

    /** Nobody has outlived a window so far, and every holder owns the row. */
    ghost predicate OnTime()
      reads this
    {
      Exclusive(Snapshot()) && Timely(Snapshot())
    }

    constructor (window: nat)
      ensures Valid() && OnTime() && Snapshot() == Start(window)
    {
      this.window, now, row, phases, claims, log := window, 0, None, map[], [], [];
    }

    /** INSERT ... ON CONFLICT DO UPDATE, whose update arm takes over an expired row only.
        While nobody is late, the winner is the only request that holds the key. */
    method TakeClaim(r: nat) returns (claimed: bool)
      requires Valid() && PhaseOf(Snapshot(), r).Claiming?
      modifies this
      ensures Valid() && Snapshot() == Step(old(Snapshot()), TryClaim(r))
      ensures claimed <==> old(row) == None || old(row).value.expires <= old(phases)[r].at
      ensures var (asking, epoch) := (old(phases)[r], |old(claims)|);
        if claimed then
          && row == Some(Row(asking.hash, None, asking.at + window, epoch))
          && phases == old(phases)[r := Running(asking.hash, epoch, asking.at + window)]
          && claims == old(claims) + [Claim(r, asking.hash, asking.at + window)]
        else
          row == old(row) && claims == old(claims) && phases == old(phases)[r := Looking(asking.hash, asking.at)]
      ensures now == old(now) && log == old(log)
      ensures old(OnTime()) ==>
                Exclusive(Snapshot()) && (claimed ==> forall q :: Holds(PhaseOf(Snapshot(), q)) <==> q == r)
    {
      ClaimAlone(Snapshot(), r);
      var (hash, at) := (phases[r].hash, phases[r].at);
      claimed := row == None || row.value.expires <= at;
      if !claimed {
        phases := phases[r := Looking(hash, at)];
        return;
      }
      var epoch := |claims|;
      row := Some(Row(hash, None, at + window, epoch));
      claims := claims + [Claim(r, hash, at + window)];
      phases := phases[r := Running(hash, epoch, at + window)];
    }

    /** The replay lookup of a request that lost the claim: the row's own response exactly
        when the row is live at the request's instant, carries its hash and has one. */
    method Lookup(r: nat) returns (outcome: Outcome)
      requires Valid() && PhaseOf(Snapshot(), r).Looking?
      modifies this`phases
      ensures Valid() && Snapshot() == Step(old(Snapshot()), Event.Lookup(r))
      ensures outcome.Replayed? ==>
                && Logged(log, old(phases)[r].hash, outcome.response, outcome.epoch)
                && outcome.epoch < |claims| && old(phases)[r].at < claims[outcome.epoch].expires
      ensures outcome.Replayed? <==>
                && row.Some? && row.value.expires > old(phases)[r].at
                && row.value.hash == old(phases)[r].hash && row.value.response.Some?
      ensures outcome.Replayed? ==>
                outcome == Replayed(row.value.response.value, row.value.epoch, old(phases)[r].at)
      ensures !outcome.Replayed? ==> outcome == Conflict
      ensures phases == old(phases)[r := Done(old(phases)[r].hash, outcome)]
    {
      StepKeepsReplays(Snapshot(), Event.Lookup(r));
      var (hash, at) := (phases[r].hash, phases[r].at);
      outcome := Conflict;
      if row.Some? && row.value.expires > at && row.value.hash == hash && row.value.response.Some? {
        outcome := Replayed(row.value.response.value, row.value.epoch, at);
      }
      phases := phases[r := Done(hash, outcome)];
      assert OutcomeLogged(Snapshot(), phases[r]);
    }

    /** The handler's end: a response below 500 is stored, anything else releases the claim.
        Either touches the row exactly when it carries the request's hash and no response
        yet, and while nobody is late that is the request's own row. */
    method End(r: nat, status: Option<nat>, response: nat)
      requires Valid() && PhaseOf(Snapshot(), r).Running?
      modifies this`row, this`phases, this`log
      ensures var result := if status.Some? && status.value < 500 then Some(response) else None;
        && Valid() && Snapshot() == Step(Step(old(Snapshot()), Finish(r, result)), Settle(r))
        && (var (hash, was) := (old(phases)[r].hash, old(row));
            if was.Some? && was.value.hash == hash && was.value.response == None then
              && row == (if result == None then None else Some(Row(hash, result, was.value.expires, was.value.epoch)))
              && log == old(log) + (if result == None then [] else [Stored(was.value.epoch, r, hash, response)])
            else row == was && log == old(log))
        && phases == old(phases)[r := Done(old(phases)[r].hash, if result == None then Failed else Answered)]
        && (old(OnTime()) ==>
              && Exclusive(Snapshot())
              && var phase := old(phases)[r];
                 row == if result == None then None else Some(Row(phase.hash, result, phase.expires, phase.epoch)))
    {
      var phase := phases[r];
      ghost var result := if status.Some? && status.value < 500 then Some(response) else None;
      EndKeeps(Snapshot(), r, result);
      var pinned := row.Some? && row.value.hash == phase.hash && row.value.response == None;
      if status.Some? && status.value < 500 {
        if pinned {
          log := log + [Stored(row.value.epoch, r, phase.hash, response)];
          row := Some(row.value.(response := Some(response)));
        }
        phases := phases[r := Done(phase.hash, Answered)];
      } else {
        if pinned {
          row := None;
        }
        phases := phases[r := Done(phase.hash, Failed)];
      }
    }
  }
}
