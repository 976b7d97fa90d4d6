/** The keyset batch loop shared by the per-tenant jobs. A table is its rows in id order;
    `eligible` is the scan's WHERE clause and `work` what a batch does to one scanned row,
    together with whatever the run accumulates. Each batch rescans from the cursor, so rows
    that leave the population while it is walked are simply not seen again. */
module Batches {
  import opened Options

  // ---------------------------------------------------------------------------
  // One pass, row by row
  // ---------------------------------------------------------------------------

  /** The specification: visit the rows once in id order, working on the eligible ones. */
  function Sweep<C, R>(c: C, rows: seq<R>, from: nat, eligible: (nat, R) -> bool, work: (C, R) -> (C, R))
    : (out: (C, seq<R>))
    requires from <= |rows|
    ensures |out.1| == |rows|
    decreases |rows| - from
  {
    if from == |rows| then (c, rows)
    else if eligible(from, rows[from]) then
      var (next, row) := work(c, rows[from]);
      Sweep(next, rows[from := row], from + 1, eligible, work)
    else Sweep(c, rows, from + 1, eligible, work)
  }

  /** How many rows a full scan from here would return. */
  function Pending<R>(rows: seq<R>, from: nat, eligible: (nat, R) -> bool): (n: nat)
    requires from <= |rows|
    ensures n <= |rows| - from
    decreases |rows| - from
  {
    if from == |rows| then 0 else (if eligible(from, rows[from]) then 1 else 0) + Pending(rows, from + 1, eligible)
  }

  /** Visited rows are not visited again, and unvisited ones are untouched until then. */
  lemma {:induction false} SweepRow<C, R>(c: C, rows: seq<R>, from: nat, i: nat, eligible: (nat, R) -> bool,
                                          work: (C, R) -> (C, R))
    requires from <= |rows| && i < |rows|
    ensures var out := Sweep(c, rows, from, eligible, work).1[i];
      if i < from || !eligible(i, rows[i]) then out == rows[i] else exists d: C :: out == work(d, rows[i]).1
    decreases |rows| - from
  {
    if from < |rows| {
      if eligible(from, rows[from]) {
        var (next, row) := work(c, rows[from]);
        if i == from {
          assert row == work(c, rows[i]).1;
        }
        SweepRow(next, rows[from := row], from + 1, i, eligible, work);
      } else {
        SweepRow(c, rows, from + 1, i, eligible, work);
      }
    }
  }

  /** The last row of a table is worked on last, if it is eligible, with whatever the rows
      before it have accumulated. */
  lemma {:induction false} SweepLast<C, R>(c: C, rows: seq<R>, last: R, from: nat, eligible: (nat, R) -> bool,
                                           work: (C, R) -> (C, R))
    requires from <= |rows|
    ensures var (d, swept) := Sweep(c, rows, from, eligible, work);
      Sweep(c, rows + [last], from, eligible, work)
      == if eligible(|rows|, last) then (work(d, last).0, swept + [work(d, last).1]) else (d, swept + [last])
    decreases |rows| - from
  {
    var longer := rows + [last];
    if from == |rows| {
      var (next, row) := work(c, last);
      assert longer[from := row] == rows + [row];
    } else if eligible(from, rows[from]) {
      var (next, row) := work(c, rows[from]);
      assert longer[from := row] == rows[from := row] + [last];
      SweepLast(next, rows[from := row], last, from + 1, eligible, work);
    } else {
      SweepLast(c, rows, last, from + 1, eligible, work);
    }
  }

  lemma {:induction false} PendingLast<R>(rows: seq<R>, last: R, from: nat, eligible: (nat, R) -> bool)
    requires from <= |rows|
    ensures Pending(rows + [last], from, eligible)
         == Pending(rows, from, eligible) + if eligible(|rows|, last) then 1 else 0
    decreases |rows| - from
  {
    if from < |rows| {
      PendingLast(rows, last, from + 1, eligible);
    }
  }

  // ---------------------------------------------------------------------------
  // One batch
  // ---------------------------------------------------------------------------

  /** The keyset scan: the first `limit` eligible rows at or after `from`. */
  function Scan<R>(rows: seq<R>, from: nat, limit: nat, eligible: (nat, R) -> bool): (found: seq<nat>)
    requires from <= |rows|
    ensures |found| <= limit
    ensures forall k | 0 <= k < |found| :: from <= found[k] < |rows| && eligible(found[k], rows[found[k]])
    ensures forall j, k | 0 <= j < k < |found| :: found[j] < found[k]
    decreases |rows| - from
  {
    if limit == 0 || from == |rows| then []
    else if eligible(from, rows[from]) then [from] + Scan(rows, from + 1, limit - 1, eligible)
    else Scan(rows, from + 1, limit, eligible)
  }

  /** Where the next scan starts: after the last row of a full batch, else at the end. */
  function After(found: seq<nat>, limit: nat, end: nat): nat {
    if |found| == limit && found != [] then found[|found| - 1] + 1 else end
  }

  function Process<C, R>(c: C, rows: seq<R>, found: seq<nat>, work: (C, R) -> (C, R)): (out: (C, seq<R>))
    requires forall k | 0 <= k < |found| :: found[k] < |rows|
    ensures |out.1| == |rows|
    decreases |found|
  {
    if found == [] then (c, rows)
    else
      var (next, row) := work(c, rows[found[0]]);
      Process(next, rows[found[0] := row], found[1..], work)
  }

  /** Working on one row leaves the scan of the rows beyond it as it was. */
  lemma {:induction false} ScanAhead<R>(rows: seq<R>, i: nat, row: R, from: nat, limit: nat, eligible: (nat, R) -> bool)
    requires i < from <= |rows|
    ensures Scan(rows[i := row], from, limit, eligible) == Scan(rows, from, limit, eligible)
    ensures Pending(rows[i := row], from, eligible) == Pending(rows, from, eligible)
    decreases |rows| - from
  {
    if from < |rows| {
      if limit > 0 && eligible(from, rows[from]) {
        ScanAhead(rows, i, row, from + 1, limit - 1, eligible);
      } else {
        ScanAhead(rows, i, row, from + 1, limit, eligible);
      }
    }
  }

  lemma {:induction false} NothingPending<C, R>(c: C, rows: seq<R>, from: nat, limit: nat, eligible: (nat, R) -> bool,
                                                work: (C, R) -> (C, R))
    requires from <= |rows| && limit > 0 && Scan(rows, from, limit, eligible) == []
    ensures Sweep(c, rows, from, eligible, work) == (c, rows) && Pending(rows, from, eligible) == 0
    decreases |rows| - from
  {
    if from < |rows| {
      NothingPending(c, rows, from + 1, limit, eligible, work);
    }
  }

  lemma ScanTakes<R>(rows: seq<R>, from: nat, limit: nat, row: R, eligible: (nat, R) -> bool)
    requires from < |rows| && limit > 0 && eligible(from, rows[from])
    ensures Scan(rows, from, limit, eligible) == [from] + Scan(rows[from := row], from + 1, limit - 1, eligible)
    ensures Pending(rows, from, eligible) == 1 + Pending(rows[from := row], from + 1, eligible)
  {
    ScanAhead(rows, from, row, from + 1, limit - 1, eligible);
  }

  /** What a batch leaves to do is what a sweep from its start would have left. */
  ghost predicate BatchSplits<C, R>(c: C, rows: seq<R>, from: nat, limit: nat, eligible: (nat, R) -> bool,
                                    work: (C, R) -> (C, R))
    requires from <= |rows| && limit > 0
  {
    var found := Scan(rows, from, limit, eligible);
    var (next, worked) := Process(c, rows, found, work);
    var resume := After(found, limit, |rows|);
    && from <= resume <= |rows|
    && Sweep(c, rows, from, eligible, work) == Sweep(next, worked, resume, eligible, work)
    && Pending(rows, from, eligible) == |found| + Pending(worked, resume, eligible)
  }

  lemma SplitsOn<C, R>(c: C, rows: seq<R>, from: nat, limit: nat, eligible: (nat, R) -> bool, work: (C, R) -> (C, R))
    requires from < |rows| && limit > 1 && eligible(from, rows[from])
    requires var (next, row) := work(c, rows[from]);
      BatchSplits(next, rows[from := row], from + 1, limit - 1, eligible, work)
    ensures BatchSplits(c, rows, from, limit, eligible, work)
  {
    var (next, row) := work(c, rows[from]);
    var rest := Scan(rows[from := row], from + 1, limit - 1, eligible);
    ScanTakes(rows, from, limit, row, eligible);
    assert After([from] + rest, limit, |rows|) == After(rest, limit - 1, |rows|);
  }

  lemma SplitsAtOne<C, R>(c: C, rows: seq<R>, from: nat, eligible: (nat, R) -> bool, work: (C, R) -> (C, R))
    requires from < |rows| && eligible(from, rows[from])
    ensures BatchSplits(c, rows, from, 1, eligible, work)
  {
    var (next, row) := work(c, rows[from]);
    ScanTakes(rows, from, 1, row, eligible);
    assert [from] + [] == [from];
  }

  /** A batch followed by the sweep of the rest is the sweep from here. */
  lemma {:induction false} BatchThenRest<C, R>(c: C, rows: seq<R>, from: nat, limit: nat, eligible: (nat, R) -> bool,
                                               work: (C, R) -> (C, R))
    requires from <= |rows| && limit > 0
    ensures BatchSplits(c, rows, from, limit, eligible, work)
    decreases |rows| - from
  {
    if from < |rows| {
      if !eligible(from, rows[from]) {
        BatchThenRest(c, rows, from + 1, limit, eligible, work);
      } else if limit == 1 {
        SplitsAtOne(c, rows, from, eligible, work);
      } else {
        var (next, row) := work(c, rows[from]);
        BatchThenRest(next, rows[from := row], from + 1, limit - 1, eligible, work);
        SplitsOn(c, rows, from, limit, eligible, work);
      }
    }
  }

  // ---------------------------------------------------------------------------
  // The loop
  // ---------------------------------------------------------------------------

  datatype RunResult<C, R> = RunResult(total: C, rows: seq<R>, scanned: nat, batches: nat)

  /** n / size rounded up. */
  function CeilDiv(n: nat, size: nat): (q: nat)
    requires size > 0
  {
    if n == 0 then 0 else 1 + CeilDiv(if n > size then n - size else 0, size)
  }

  lemma {:induction false} CeilDivIsCeiling(n: nat, size: nat)
    requires size > 0
    ensures n <= CeilDiv(n, size) * size < n + size
  {
    if n > size {
      CeilDivIsCeiling(n - size, size);
      assert CeilDiv(n, size) * size == CeilDiv(n - size, size) * size + size;
    }
  }

  /** One batch transaction: scan, then work on the scanned rows in order. */
  method ProcessBatch<C, R>(c: C, rows: seq<R>, from: nat, limit: nat, eligible: (nat, R) -> bool,
                            work: (C, R) -> (C, R))
    returns (next: C, worked: seq<R>, found: seq<nat>)
    requires from <= |rows|
    ensures found == Scan(rows, from, limit, eligible)
    ensures (next, worked) == Process(c, rows, found, work)
  {
    found := Scan(rows, from, limit, eligible);
    next, worked := c, rows;
    for k := 0 to |found|
      invariant |worked| == |rows|
      invariant Process(c, rows, found, work) == Process(next, worked, found[k..], work)
    {
      var (after, row) := work(next, worked[found[k]]);
      assert found[k..][0] == found[k] && found[k..][1..] == found[k + 1..];
      next, worked := after, worked[found[k] := row];
    }
  }

  /** The same, for a batch that has run: where the next one resumes, and what it counts. */
  lemma BatchDone<C, R>(c: C, rows: seq<R>, from: nat, limit: nat, eligible: (nat, R) -> bool, work: (C, R) -> (C, R),
                        next: C, worked: seq<R>, found: seq<nat>, resume: nat)
    requires from <= |rows| && limit > 0 && found == Scan(rows, from, limit, eligible)
    requires (next, worked) == Process(c, rows, found, work) && resume == After(found, limit, |rows|)
    ensures from <= resume <= |rows| == |worked|
    ensures Sweep(c, rows, from, eligible, work) == Sweep(next, worked, resume, eligible, work)
    ensures Pending(rows, from, eligible) == |found| + Pending(worked, resume, eligible)
    ensures if |found| < limit then resume == |rows| && Pending(worked, resume, eligible) == 0 else from < resume
  {
    BatchThenRest(c, rows, from, limit, eligible, work);
  }

  /** Drive the batches to exhaustion: a non-positive size is an error; otherwise every
      eligible row is worked on exactly once, in id order, in ceil(n / size) batches. */
  method RunInBatches<C, R>(start: C, table: seq<R>, eligible: (nat, R) -> bool, work: (C, R) -> (C, R), size: int)
    returns (result: Option<RunResult<C, R>>)
    ensures result.None? <==> size < 1
    ensures result.Some? ==>
              && (result.value.total, result.value.rows) == Sweep(start, table, 0, eligible, work)
              && result.value.scanned == Pending(table, 0, eligible)
              && result.value.batches == CeilDiv(Pending(table, 0, eligible), size)
  {
    if size < 1 {
      return None;
    }
    var total, rows, done := start, table, false;
    var from: nat, scanned: nat, batches: nat := 0, 0, 0;
    while !done
      invariant from <= |rows|
      invariant done ==> from == |rows|
      invariant Sweep(start, table, 0, eligible, work) == Sweep(total, rows, from, eligible, work)
      invariant Pending(table, 0, eligible) == scanned + Pending(rows, from, eligible)
      invariant CeilDiv(Pending(table, 0, eligible), size) == batches + CeilDiv(Pending(rows, from, eligible), size)
      decreases |rows| - from, !done
    {
      var next, worked, found := ProcessBatch(total, rows, from, size, eligible, work);
      var resume := After(found, size, |rows|);
      BatchDone(total, rows, from, size, eligible, work, next, worked, found, resume);
      from := resume;
      total, rows := next, worked;
      scanned := scanned + |found|;
      if |found| > 0 {
        batches := batches + 1;
      }
      done := |found| < size;
    }
    result := Some(RunResult(total, rows, scanned, batches));
  }

  // ---------------------------------------------------------------------------
  // A second run
  // ---------------------------------------------------------------------------

  ghost predicate LeavesPopulation<C(!new), R(!new)>(eligible: (nat, R) -> bool, work: (C, R) -> (C, R)) {
    forall c, i, r :: eligible(i, r) ==> !eligible(i, work(c, r).1)
  }

  /** When working on a row takes it out of the population, nothing is left to scan. */
  lemma {:induction false} SweptClean<C(!new), R(!new)>(c: C, rows: seq<R>, from: nat, eligible: (nat, R) -> bool,
                                                        work: (C, R) -> (C, R), at: nat)
    requires LeavesPopulation(eligible, work) && from <= |rows| && at <= |rows|
    requires forall i | 0 <= i < from :: !eligible(i, rows[i])
    ensures Pending(Sweep(c, rows, from, eligible, work).1, at, eligible) == 0
    decreases |rows| - from
  {
    if from == |rows| {
      NoneEligible(rows, at, eligible);
    } else if eligible(from, rows[from]) {
      var (next, row) := work(c, rows[from]);
      SweptClean(next, rows[from := row], from + 1, eligible, work, at);
    } else {
      SweptClean(c, rows, from + 1, eligible, work, at);
    }
  }

  lemma {:induction false} NoneEligible<R>(rows: seq<R>, from: nat, eligible: (nat, R) -> bool)
    requires from <= |rows| && forall i | 0 <= i < |rows| :: !eligible(i, rows[i])
    ensures Pending(rows, from, eligible) == 0
    decreases |rows| - from
  {
    if from < |rows| {
      NoneEligible(rows, from + 1, eligible);
    }
  }

  lemma {:induction false} NothingToSweep<C, R>(c: C, rows: seq<R>, from: nat, eligible: (nat, R) -> bool,
                                                work: (C, R) -> (C, R))
    requires from <= |rows| && Pending(rows, from, eligible) == 0
    ensures Sweep(c, rows, from, eligible, work) == (c, rows)
    decreases |rows| - from
  {
    if from < |rows| {
      NothingToSweep(c, rows, from + 1, eligible, work);
    }
  }

  /** ... so a second run, with any accumulator, scans nothing and changes nothing. */
  lemma SecondRunIsIdle<C(!new), R(!new)>(c: C, d: C, table: seq<R>, eligible: (nat, R) -> bool, work: (C, R) -> (C, R))
    requires LeavesPopulation(eligible, work)
    ensures var swept := Sweep(c, table, 0, eligible, work).1;
      Pending(swept, 0, eligible) == 0 && Sweep(d, swept, 0, eligible, work) == (d, swept)
  {
    SweptClean(c, table, 0, eligible, work, 0);
    NothingToSweep(d, Sweep(c, table, 0, eligible, work).1, 0, eligible, work);
  }
}
