/** Jobs whose work empties their own population: dormancy and the branch backfill. */
module Populations {
  import opened Options
  import opened Batches

  // ---------------------------------------------------------------------------
  // Dormancy
  // ---------------------------------------------------------------------------

  datatype MemberStatus = Active | Arrears | Dormant | Exited

  /** One transaction of the member, as the activity test reads it. */
  datatype Activity = Activity(at: int, memberInitiated: bool, reversal: bool)

  datatype Member = Member(status: MemberStatus, created: int, activity: seq<Activity>, version: nat)

  /** Something the member did on or after the cutoff: system postings and reversals do not
      count. */
  predicate ActiveSince(m: Member, cutoff: int) {
    exists k | 0 <= k < |m.activity| ::
      m.activity[k].at >= cutoff && m.activity[k].memberInitiated && !m.activity[k].reversal
  }

  predicate Lapsed(m: Member, cutoff: int) { m.status == Active && m.created < cutoff && !ActiveSince(m, cutoff) }

  /** What the scan returns: lapsed members, less those another transaction holds locked when
      it reaches them (SKIP LOCKED). The cursor passes a row once, so one set says which. */
  function LapsedAt(cutoff: int, held: set<nat>): (nat, Member) -> bool {
    (i: nat, m: Member) => Lapsed(m, cutoff) && i !in held
  }

  function MarkDormant(): (nat, Member) -> (nat, Member) {
    (transitioned: nat, m: Member) => (transitioned + 1, m.(status := Dormant, version := m.version + 1))
  }

  lemma {:induction false} DormancySweep(n: nat, table: seq<Member>, from: nat, cutoff: int, held: set<nat>, i: nat)
    requires from <= |table| && i < |table|
    ensures var (total, swept) := Sweep(n, table, from, LapsedAt(cutoff, held), MarkDormant());
      && total == n + Pending(table, from, LapsedAt(cutoff, held))
      && swept[i] == if i >= from && LapsedAt(cutoff, held)(i, table[i])
                     then table[i].(status := Dormant, version := table[i].version + 1) else table[i]
    decreases |table| - from
  {
    if from < |table| {
      if LapsedAt(cutoff, held)(from, table[from]) {
        var (next, row) := MarkDormant()(n, table[from]);
        UnseenStay(table, from, row, from + 1, LapsedAt(cutoff, held));
        DormancySweep(next, table[from := row], from + 1, cutoff, held, i);
      } else {
        DormancySweep(n, table, from + 1, cutoff, held, i);
      }
    }
  }

  lemma UnseenStay<R>(rows: seq<R>, i: nat, row: R, from: nat, eligible: (nat, R) -> bool)
    requires i < from <= |rows|
    ensures Pending(rows[i := row], from, eligible) == Pending(rows, from, eligible)
  {
    ScanAhead(rows, i, row, from, 1, eligible);
  }

  /** One dormancy run, refused when the tenant has no usable period. It marks exactly the
      lapsed members it finds unlocked, each once, and a second run for the same cutoff finds
      none of them again. */
  method RunDormancy(table: seq<Member>, held: set<nat>, cutoff: Option<int>, size: int)
    returns (result: Option<RunResult<nat, Member>>)
    ensures result.None? <==> cutoff == None || size < 1
    ensures result.Some? ==>
              var scanned, run := LapsedAt(cutoff.value, held), result.value;
              && |run.rows| == |table|
              && run.total == run.scanned == Pending(table, 0, scanned)
              && run.batches == CeilDiv(run.scanned, size)
              && (forall i | 0 <= i < |table| ::
                    run.rows[i] ==
                    var m := table[i];
                    if m.status == Active && m.created < cutoff.value && !(exists a | a in m.activity ::
                         a.memberInitiated && !a.reversal && cutoff.value <= a.at) && i !in held
                    then Member(Dormant, m.created, m.activity, m.version + 1) else m)
              && Pending(run.rows, 0, scanned) == 0
  {
    if cutoff == None {
      return None;
    }
    result := RunInBatches(0, table, LapsedAt(cutoff.value, held), MarkDormant(), size);
    if result.Some? {
      SecondRunIsIdle(0, 0, table, LapsedAt(cutoff.value, held), MarkDormant());
      forall i | 0 <= i < |table|
        ensures result.value.total == Pending(table, 0, LapsedAt(cutoff.value, held))
        ensures result.value.rows[i] == if Lapsed(table[i], cutoff.value) && i !in held
                                        then table[i].(status := Dormant, version := table[i].version + 1) else table[i]
        ensures ActiveSince(table[i], cutoff.value) <==>
                exists a | a in table[i].activity :: a.memberInitiated && !a.reversal && cutoff.value <= a.at
      {
        DormancySweep(0, table, 0, cutoff.value, held, i);
      }
      TotalIsPending(table, cutoff.value, held);
    }
  }

  lemma TotalIsPending(table: seq<Member>, cutoff: int, held: set<nat>)
    ensures Sweep(0, table, 0, LapsedAt(cutoff, held), MarkDormant()).0 == Pending(table, 0, LapsedAt(cutoff, held))
  {
    if table != [] {
      DormancySweep(0, table, 0, cutoff, held, 0);
    }
  }

  // ---------------------------------------------------------------------------
  // Branch backfill
  // ---------------------------------------------------------------------------

  /** A user with the legacy text branch and the link that replaces it. */
  datatype User = User(branch: Option<string>, branchId: Option<nat>, version: nat)

  /** The branches table; an id is a name's position. */
  datatype Registry = Registry(names: seq<string>, created: nat, linked: nat)

  function TrimLeft(s: string): string { if s != [] && s[0] == ' ' then TrimLeft(s[1..]) else s }

  function TrimRight(s: string): string {
    if s != [] && s[|s| - 1] == ' ' then TrimRight(s[..|s| - 1]) else s
  }

  function Trim(s: string): string { TrimRight(TrimLeft(s)) }

  predicate Blank(s: string) { forall i | 0 <= i < |s| :: s[i] == ' ' }

  lemma {:induction false} TrimLeftCuts(s: string) returns (k: nat)
    ensures k <= |s| && Blank(s[..k]) && TrimLeft(s) == s[k..] && (k < |s| ==> s[k] != ' ')
  {
    if s != [] && s[0] == ' ' {
      var j := TrimLeftCuts(s[1..]);
      k := j + 1;
      assert s[..k] == [' '] + s[1..][..j];
    } else {
      k := 0;
    }
  }

  lemma {:induction false} TrimRightCuts(s: string) returns (k: nat)
    ensures k <= |s| && Blank(s[k..]) && TrimRight(s) == s[..k] && (k > 0 ==> s[k - 1] != ' ')
  {
    if s != [] && s[|s| - 1] == ' ' {
      k := TrimRightCuts(s[..|s| - 1]);
      assert s[k..] == s[..|s| - 1][k..] + [' '];
    } else {
      k := |s|;
    }
  }

  /** Trimming takes away the blanks at both ends and nothing else. */
  lemma TrimCuts(s: string) returns (from: nat, to: nat)
    ensures from <= to <= |s| && Trim(s) == s[from..to] && Blank(s[..from]) && Blank(s[to..])
    ensures Trim(s) != [] ==> s[from] != ' ' && s[to - 1] != ' '
    ensures Trim(s) == [] <==> Blank(s)
  {
    from := TrimLeftCuts(s);
    var kept := TrimRightCuts(s[from..]);
    to := from + kept;
    assert s[from..][..kept] == s[from..to] && s[from..][kept..] == s[to..];
    if from < to {
      assert s[from] == s[from..][0] && s[to - 1] == s[from..][kept - 1];
    } else {
      assert s == s[..from] + s[to..];
    }
  }

  function NameOf(u: User): string { if u.branch.Some? then Trim(u.branch.value) else "" }

  predicate Unlinked(u: User) { u.branchId == None && NameOf(u) != "" }

  function UnlinkedUsers(): (nat, User) -> bool { (i: nat, u: User) => Unlinked(u) }

  /** INSERT ... ON CONFLICT (name) DO NOTHING. */
  function Claim(names: seq<string>, name: string): seq<string> { if name in names then names else names + [name] }

  function IdOf(names: seq<string>, name: string): (id: nat)
    requires name in names
    ensures id < |names| && names[id] == name
  {
    if names[0] == name then 0 else 1 + IdOf(names[1..], name)
  }

  function Linked(u: User, id: nat): User { u.(branchId := Some(id), version := u.version + 1) }

  /** One user at a time: claim the branch of that name, then link. */
  function Link(): (Registry, User) -> (Registry, User) {
    (r: Registry, u: User) =>
      var names := Claim(r.names, NameOf(u));
      (Registry(names, r.created + |names| - |r.names|, r.linked + 1), Linked(u, IdOf(names, NameOf(u))))
  }

  /** Branch ids never move: names are only appended. */
  lemma {:induction false} IdStays(names: seq<string>, more: seq<string>, name: string)
    requires name in names
    ensures name in names + more && IdOf(names + more, name) == IdOf(names, name)
  {
    if names[0] != name {
      assert (names + more)[1..] == names[1..] + more;
      IdStays(names[1..], more, name);
    }
  }

  function ClaimAll(names: seq<string>, users: seq<User>, found: seq<nat>): (all: seq<string>)
    requires forall k | 0 <= k < |found| :: found[k] < |users|
    ensures names <= all
    ensures forall k | 0 <= k < |found| :: NameOf(users[found[k]]) in all
    decreases |found|
  {
    if found == [] then names
    else
      var first := Claim(names, NameOf(users[found[0]]));
      var all := ClaimAll(first, users, found[1..]);
      assert NameOf(users[found[0]]) in all by {
        var i :| 0 <= i < |first| && first[i] == NameOf(users[found[0]]);
        assert all[i] == first[i];
      }
      assert forall k | 0 < k < |found| :: found[k] == found[1..][k - 1];
      all
  }

  lemma {:induction false} ClaimsIgnoreOtherRows(names: seq<string>, users: seq<User>, i: nat, u: User, found: seq<nat>)
    requires i < |users| && forall k | 0 <= k < |found| :: i != found[k] < |users|
    ensures ClaimAll(names, users[i := u], found) == ClaimAll(names, users, found)
    decreases |found|
  {
    if found != [] {
      ClaimsIgnoreOtherRows(Claim(names, NameOf(users[found[0]])), users, i, u, found[1..]);
    }
  }

  ghost predicate Ascending(found: seq<nat>, n: nat) {
    (forall k | 0 <= k < |found| :: found[k] < n) && (forall j, k | 0 <= j < k < |found| :: found[j] < found[k])
  }

  /** Every found row linked to the branch of its name, every other row untouched. */
  ghost predicate LinkedRows(users: seq<User>, found: seq<nat>, names: seq<string>, after: seq<User>)
    requires Ascending(found, |users|)
  {
    && |after| == |users|
    && (forall i | 0 <= i < |users| && i !in found :: after[i] == users[i])
    && (forall k | 0 <= k < |found| :: NameOf(users[found[k]]) in names
          && after[found[k]] == Linked(users[found[k]], IdOf(names, NameOf(users[found[k]]))))
  }

  lemma LinkedRowsAgree(users: seq<User>, found: seq<nat>, names: seq<string>, a: seq<User>, b: seq<User>)
    requires Ascending(found, |users|) && LinkedRows(users, found, names, a) && LinkedRows(users, found, names, b)
    ensures a == b
  {
    forall i | 0 <= i < |users| ensures a[i] == b[i] {
      if i in found {
        var k :| 0 <= k < |found| && found[k] == i;
      }
    }
  }

  function Claimed(r: Registry, names: seq<string>, links: nat): Registry
    requires r.names <= names
  {
    Registry(names, r.created + |names| - |r.names|, r.linked + links)
  }

  lemma RestClaims(r: Registry, users: seq<User>, found: seq<nat>, row: User)
    requires found != [] && Ascending(found, |users|)
    ensures Ascending(found[1..], |users|) && Claim(r.names, NameOf(users[found[0]])) <= ClaimAll(r.names, users, found)
    ensures ClaimAll(Link()(r, users[found[0]]).0.names, users[found[0] := row], found[1..])
         == ClaimAll(r.names, users, found)
  {
    ClaimsIgnoreOtherRows(Claim(r.names, NameOf(users[found[0]])), users, found[0], row, found[1..]);
  }

  /** Linking row by row claims the same names as claiming them all first ... */
  lemma {:induction false} RowByRowClaims(r: Registry, users: seq<User>, found: seq<nat>, s: Registry,
                                          names: seq<string>)
    requires Ascending(found, |users|)
    requires s == Process(r, users, found, Link()).0 && names == ClaimAll(r.names, users, found)
    ensures s == Claimed(r, names, |found|)
    decreases |found|
  {
    if found != [] {
      var (next, row) := Link()(r, users[found[0]]);
      RestClaims(r, users, found, row);
      RowByRowClaims(next, users[found[0] := row], found[1..], s, names);
    }
  }

  /** The id a row is linked to is the one its name has in every later registry. */
  lemma FirstLink(r: Registry, u: User, names: seq<string>)
    requires Claim(r.names, NameOf(u)) <= names
    ensures NameOf(u) in names && Link()(r, u).1 == Linked(u, IdOf(names, NameOf(u)))
  {
    var claimed := Claim(r.names, NameOf(u));
    assert names == claimed + names[|claimed|..];
    IdStays(claimed, names[|claimed|..], NameOf(u));
  }

  /** ... and links the same rows to the same branches. */
  lemma {:induction false} RowByRowLinks(r: Registry, users: seq<User>, found: seq<nat>)
    requires Ascending(found, |users|)
    ensures LinkedRows(users, found, ClaimAll(r.names, users, found), Process(r, users, found, Link()).1)
    decreases |found|
  {
    if found != [] {
      var (next, row) := Link()(r, users[found[0]]);
      var names := ClaimAll(r.names, users, found);
      RestClaims(r, users, found, row);
      FirstLink(r, users[found[0]], names);
      RowByRowLinks(next, users[found[0] := row], found[1..]);
      FirstThenRest(users, found, row, names, Process(next, users[found[0] := row], found[1..], Link()).1);
    }
  }

  lemma FirstThenRest(users: seq<User>, found: seq<nat>, row: User, names: seq<string>, after: seq<User>)
    requires found != [] && Ascending(found, |users|) && Ascending(found[1..], |users|)
    requires NameOf(users[found[0]]) in names && row == Linked(users[found[0]], IdOf(names, NameOf(users[found[0]])))
    requires LinkedRows(users[found[0] := row], found[1..], names, after)
    ensures LinkedRows(users, found, names, after)
  {
    var rest := found[1..];
    forall k | 0 <= k < |found|
      ensures NameOf(users[found[k]]) in names
      ensures after[found[k]] == Linked(users[found[k]], IdOf(names, NameOf(users[found[k]])))
    {
      if k > 0 {
        assert rest[k - 1] == found[k];
      }
    }
    forall i | 0 <= i < |users| && i !in found ensures after[i] == users[i] {
      assert i !in rest;
    }
  }

  method ClaimNames(names: seq<string>, users: seq<User>, found: seq<nat>) returns (all: seq<string>)
    requires Ascending(found, |users|)
    ensures all == ClaimAll(names, users, found)
  {
    all := names;
    for k := 0 to |found|
      invariant ClaimAll(names, users, found) == ClaimAll(all, users, found[k..])
    {
      assert found[k..][0] == found[k] && found[k..][1..] == found[k + 1..];
      if NameOf(users[found[k]]) !in all {
        all := all + [NameOf(users[found[k]])];
      }
    }
  }

  method LinkRows(users: seq<User>, found: seq<nat>, names: seq<string>) returns (after: seq<User>)
    requires Ascending(found, |users|) && forall k | 0 <= k < |found| :: NameOf(users[found[k]]) in names
    ensures LinkedRows(users, found, names, after)
  {
    after := users;
    for k := 0 to |found|
      invariant Ascending(found[..k], |users|) && LinkedRows(users, found[..k], names, after)
    {
      assert found[..k + 1] == found[..k] + [found[k]];
      after := after[found[k] := Linked(users[found[k]], IdOf(names, NameOf(users[found[k]])))];
    }
    assert found[..|found|] == found;
  }

  lemma TwoPhaseIsRowByRow(r: Registry, users: seq<User>, found: seq<nat>, names: seq<string>, after: seq<User>)
    requires Ascending(found, |users|)
    requires names == ClaimAll(r.names, users, found) && LinkedRows(users, found, names, after)
    ensures Process(r, users, found, Link()) == (Claimed(r, names, |found|), after)
  {
    RowByRowClaims(r, users, found, Process(r, users, found, Link()).0, names);
    RowByRowLinks(r, users, found);
    LinkedRowsAgree(users, found, names, after, Process(r, users, found, Link()).1);
  }

  /** One batch as the job writes it: every name claims its branch, then every row is
      linked. It does exactly what linking row by row would do. */
  method BackfillBatch(r: Registry, users: seq<User>, found: seq<nat>) returns (s: Registry, after: seq<User>)
    requires Ascending(found, |users|)
    ensures (s, after) == Process(r, users, found, Link())
  {
    var names := ClaimNames(r.names, users, found);
    after := LinkRows(users, found, names);
    s := Claimed(r, names, |found|);
    TwoPhaseIsRowByRow(r, users, found, names, after);
  }

  // ---------------------------------------------------------------------------
  // A whole backfill
  // ---------------------------------------------------------------------------

  ghost predicate NoDuplicates(names: seq<string>) {
    forall i, j | 0 <= i < j < |names| :: names[i] != names[j]
  }

  /** Names stay unique and keep their ids; the counter says how many are new. */
  ghost predicate Grew(r: Registry, s: Registry) {
    && r.names <= s.names && s.created == r.created + |s.names| - |r.names| && r.linked <= s.linked
    && (NoDuplicates(r.names) ==> NoDuplicates(s.names))
  }

  lemma GrewOn(r: Registry, s: Registry, t: Registry)
    requires Grew(r, s) && Grew(s, t)
    ensures Grew(r, t)
  {
  }

  lemma LinkGrows(r: Registry, u: User)
    ensures Grew(r, Link()(r, u).0)
  {
  }

  lemma {:induction false} SweepGrows(r: Registry, users: seq<User>, from: nat)
    requires from <= |users|
    ensures Grew(r, Sweep(r, users, from, UnlinkedUsers(), Link()).0)
    decreases |users| - from
  {
    if from < |users| {
      if Unlinked(users[from]) {
        var (next, row) := Link()(r, users[from]);
        LinkGrows(r, users[from]);
        SweepGrows(next, users[from := row], from + 1);
        GrewOn(r, next, Sweep(next, users[from := row], from + 1, UnlinkedUsers(), Link()).0);
      } else {
        SweepGrows(r, users, from + 1);
      }
    }
  }

  /** The row a sweep links first keeps that link, and its branch keeps its id. */
  lemma LinkedHere(r: Registry, users: seq<User>, from: nat)
    requires from < |users|
    ensures var (next, row) := Link()(r, users[from]);
      var (s, after) := Sweep(next, users[from := row], from + 1, UnlinkedUsers(), Link());
      NameOf(users[from]) in s.names && after[from] == Linked(users[from], IdOf(s.names, NameOf(users[from])))
  {
    var (next, row) := Link()(r, users[from]);
    var s := Sweep(next, users[from := row], from + 1, UnlinkedUsers(), Link()).0;
    SweepGrows(next, users[from := row], from + 1);
    FirstLink(r, users[from], s.names);
    SweepRow(next, users[from := row], from + 1, from, UnlinkedUsers(), Link());
  }

  /** A whole backfill links a user exactly when they carried an unlinked legacy branch, to
      the branch named like their own trimmed text. */
  lemma {:induction false} BackfillLinks(r: Registry, users: seq<User>, from: nat, i: nat, s: Registry,
                                          after: seq<User>)
    requires from <= i < |users| && (s, after) == Sweep(r, users, from, UnlinkedUsers(), Link())
    ensures |after| == |users|
    ensures if Unlinked(users[i])
            then NameOf(users[i]) in s.names && after[i] == Linked(users[i], IdOf(s.names, NameOf(users[i])))
            else after[i] == users[i]
    decreases |users| - from
  {
    if Unlinked(users[from]) {
      var (next, row) := Link()(r, users[from]);
      if i == from {
        LinkedHere(r, users, from);
      } else {
        BackfillLinks(next, users[from := row], from + 1, i, s, after);
      }
    } else if i == from {
      SweepRow(r, users, from + 1, from, UnlinkedUsers(), Link());
    } else {
      BackfillLinks(r, users, from + 1, i, s, after);
    }
  }

  /** A name is new only because a user carried it. */
  ghost predicate Carried(r: Registry, users: seq<User>, s: Registry) {
    forall name | name in s.names ::
      name in r.names || exists i | 0 <= i < |users| :: Unlinked(users[i]) && NameOf(users[i]) == name
  }

  lemma CarriedHere(r: Registry, users: seq<User>, from: nat, s: Registry)
    requires from < |users| && Unlinked(users[from])
    requires var (next, row) := Link()(r, users[from]); Carried(next, users[from := row], s)
    ensures Carried(r, users, s)
  {
    var (next, row) := Link()(r, users[from]);
    var later := users[from := row];
    forall name | name in s.names && name !in r.names
      ensures exists i | 0 <= i < |users| :: Unlinked(users[i]) && NameOf(users[i]) == name
    {
      if name in next.names {
        assert name == NameOf(users[from]);
      } else {
        var i :| 0 <= i < |later| && Unlinked(later[i]) && NameOf(later[i]) == name;
        assert users[i] == later[i];
      }
    }
  }

  lemma {:induction false} SweepCarries(r: Registry, users: seq<User>, from: nat, s: Registry)
    requires from <= |users| && s == Sweep(r, users, from, UnlinkedUsers(), Link()).0
    ensures Carried(r, users, s) && s.linked == r.linked + Pending(users, from, UnlinkedUsers())
    decreases |users| - from
  {
    if from < |users| {
      if Unlinked(users[from]) {
        var (next, row) := Link()(r, users[from]);
        UnseenStay(users, from, row, from + 1, UnlinkedUsers());
        SweepCarries(next, users[from := row], from + 1, s);
        CarriedHere(r, users, from, s);
      } else {
        SweepCarries(r, users, from + 1, s);
      }
    }
  }

  /** What a backfill leaves of a user: linked to the branch that is named like their trimmed
      text, if they had text and no link. */
  ghost predicate LinkedByName(u: User, names: seq<string>, v: User) {
    if u.branchId == None && u.branch.Some? && !Blank(u.branch.value) then
      && v.branch == u.branch && v.version == u.version + 1
      && v.branchId.Some? && v.branchId.value < |names| && names[v.branchId.value] == Trim(u.branch.value)
    else v == u
  }

  lemma BackfillLinksAll(r: Registry, users: seq<User>, s: Registry, after: seq<User>)
    requires (s, after) == Sweep(r, users, 0, UnlinkedUsers(), Link())
    ensures |after| == |users| && forall i | 0 <= i < |users| :: LinkedByName(users[i], s.names, after[i])
  {
    forall i | 0 <= i < |users| ensures LinkedByName(users[i], s.names, after[i]) {
      BackfillLinks(r, users, 0, i, s, after);
      if users[i].branch.Some? {
        var from, to := TrimCuts(users[i].branch.value);
      }
    }
  }

  /** The job: every user with text and no link gets the branch of that name, names are
      created once and only for them, and afterwards no user is left to link, so a second run
      scans nothing. */
  method RunBackfill(names: seq<string>, users: seq<User>, size: int)
    returns (result: Option<RunResult<Registry, User>>)
    ensures result.None? <==> size < 1
    ensures result.Some? ==>
              && (result.value.total, result.value.rows)
                 == Sweep(Registry(names, 0, 0), users, 0, UnlinkedUsers(), Link())
              && result.value.scanned == Pending(users, 0, UnlinkedUsers())
              && result.value.batches == CeilDiv(result.value.scanned, size)
              && Grew(Registry(names, 0, 0), result.value.total)
              && Carried(Registry(names, 0, 0), users, result.value.total)
              && result.value.total.linked == result.value.scanned
              && |result.value.rows| == |users|
              && (forall i | 0 <= i < |users| ::
                    LinkedByName(users[i], result.value.total.names, result.value.rows[i]))
              && Pending(result.value.rows, 0, UnlinkedUsers()) == 0
  {
    result := RunInBatches(Registry(names, 0, 0), users, UnlinkedUsers(), Link(), size);
    SecondRunIsIdle(Registry(names, 0, 0), Registry(names, 0, 0), users, UnlinkedUsers(), Link());
    SweepGrows(Registry(names, 0, 0), users, 0);
    var (s, after) := Sweep(Registry(names, 0, 0), users, 0, UnlinkedUsers(), Link());
    SweepCarries(Registry(names, 0, 0), users, 0, s);
    BackfillLinksAll(Registry(names, 0, 0), users, s, after);
  }
}
