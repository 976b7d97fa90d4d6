/** The member roster of a branch: member numbers as text, ordered by (length, text), and
    walked page by page from the last number served. */
module Roster {
  import opened Options
  import opened Batches

  const PREFIX := "GP-"
  const CURSOR_MAX := 32

  // ---------------------------------------------------------------------------
  // Member numbers
  // ---------------------------------------------------------------------------

  predicate IsDigit(c: char) { '0' <= c <= '9' }

  function DigitOf(d: nat): (c: char)
    requires d < 10
    ensures IsDigit(c) && c as int - '0' as int == d
  {
    ('0' as int + d) as char
  }

  function Digits(n: nat): (s: string)
    ensures |s| > 0 && forall i | 0 <= i < |s| :: IsDigit(s[i])
  {
    if n < 10 then [DigitOf(n)] else Digits(n / 10) + [DigitOf(n % 10)]
  }

  function Zeros(n: nat): (s: string)
    ensures |s| == n && forall i | 0 <= i < n :: s[i] == '0'
  {
    seq(n, i => '0')
  }

  /** Zero-padded to at least four digits. */
  function Padded(n: nat): (s: string)
    ensures |s| >= 4 && forall i | 0 <= i < |s| :: IsDigit(s[i])
  {
    var d := Digits(n);
    if |d| >= 4 then d else Zeros(4 - |d|) + d
  }

  function MemberNo(n: nat): string
    requires n > 0
  {
    PREFIX + Padded(n)
  }

  /** Text order: first difference, a proper prefix first. */
  predicate TextLess(a: string, b: string) {
    b != [] && (a == [] || a[0] < b[0] || (a[0] == b[0] && TextLess(a[1..], b[1..])))
  }

  /** The roster order: (length, text). */
  predicate Before(a: string, b: string) { |a| < |b| || (|a| == |b| && TextLess(a, b)) }

  // ---------------------------------------------------------------------------
  // Order
  // ---------------------------------------------------------------------------

  function Pow10(k: nat): (p: nat)
    ensures p > 0
  {
    if k == 0 then 1 else 10 * Pow10(k - 1)
  }

  predicate AllDigits(s: string) { forall i | 0 <= i < |s| :: IsDigit(s[i]) }

  function DigitValue(c: char): (d: nat)
    requires IsDigit(c)
    ensures d < 10
  {
    c as int - '0' as int
  }

  function Value(s: string): (v: nat)
    requires AllDigits(s)
  {
    if s == [] then 0
    else
      var d, p := DigitValue(s[0]), Pow10(|s| - 1);
      assert d * p >= 0;
      d * p + Value(s[1..])
  }

  lemma {:induction false} ValueBounded(s: string)
    requires AllDigits(s)
    ensures Value(s) < Pow10(|s|)
  {
    if s != [] {
      ValueBounded(s[1..]);
      Times(DigitValue(s[0]), 9, Pow10(|s| - 1));
    }
  }

  lemma Times(a: nat, b: nat, p: nat)
    requires a <= b
    ensures a * p <= b * p
  {
  }

  lemma TenTimes(d: nat, p: nat)
    ensures d * (10 * p) == 10 * (d * p)
  {
  }

  lemma {:induction false} ValueSnoc(s: string, c: char)
    requires AllDigits(s) && IsDigit(c)
    ensures AllDigits(s + [c]) && Value(s + [c]) == 10 * Value(s) + DigitValue(c)
  {
    var t := s + [c];
    if s == [] {
      assert t[1..] == [];
      assert Pow10(0) == 1;
    } else {
      assert t[1..] == s[1..] + [c];
      ValueSnoc(s[1..], c);
      TenTimes(DigitValue(s[0]), Pow10(|s| - 1));
      assert Pow10(|t| - 1) == 10 * Pow10(|s| - 1);
    }
  }

  lemma {:induction false} DigitsValue(n: nat)
    ensures Value(Digits(n)) == n
  {
    if n < 10 {
      assert Digits(n)[1..] == [] && Pow10(0) == 1;
    } else {
      DigitsValue(n / 10);
      ValueSnoc(Digits(n / 10), DigitOf(n % 10));
    }
  }

  lemma {:induction false} ZerosValue(k: nat, s: string)
    requires AllDigits(s)
    ensures AllDigits(Zeros(k) + s) && Value(Zeros(k) + s) == Value(s)
  {
    if k == 0 {
      assert Zeros(0) + s == s;
    } else {
      assert (Zeros(k) + s)[1..] == Zeros(k - 1) + s;
      ZerosValue(k - 1, s);
    }
  }

  /** Padding does not change the number: it reads back as the sequence. */
  lemma PaddedValue(n: nat)
    ensures Value(Padded(n)) == n
  {
    DigitsValue(n);
    if |Digits(n)| < 4 {
      ZerosValue(4 - |Digits(n)|, Digits(n));
    }
  }

  /** A number has no more digits than it needs. */
  lemma {:induction false} DigitsAreMinimal(n: nat)
    requires n > 0
    ensures n >= Pow10(|Digits(n)| - 1)
  {
    if n < 10 {
      assert Pow10(0) == 1;
    } else {
      DigitsAreMinimal(n / 10);
    }
  }

  /** The leading digit decides; equal leading digits leave it to the rest. */
  lemma LeadDecides(x: nat, y: nat, p: nat, a: nat, b: nat)
    requires a < p && b < p
    ensures x * p + a < y * p + b <==> x < y || (x == y && a < b)
  {
    if x < y {
      Times(x + 1, y, p);
      assert (x + 1) * p == x * p + p;
    } else if y < x {
      Times(y + 1, x, p);
      assert (y + 1) * p == y * p + p;
    }
  }

  /** On digits of equal length, text order is numeric order. */
  lemma {:induction false} TextIsNumeric(a: string, b: string)
    requires AllDigits(a) && AllDigits(b) && |a| == |b|
    ensures TextLess(a, b) <==> Value(a) < Value(b)
  {
    if a != [] {
      TextIsNumeric(a[1..], b[1..]);
      ValueBounded(a[1..]);
      ValueBounded(b[1..]);
      LeadDecides(DigitValue(a[0]), DigitValue(b[0]), Pow10(|a| - 1), Value(a[1..]), Value(b[1..]));
    }
  }

  lemma LongerIsBigger(m: nat, n: nat)
    requires 0 < m && 0 < n && |Padded(m)| < |Padded(n)|
    ensures m < n
  {
    PaddedValue(m);
    ValueBounded(Padded(m));
    DigitsAreMinimal(n);
    assert Padded(n) == Digits(n);
    PowersAscend(|Padded(m)|, |Padded(n)| - 1);
  }

  lemma {:induction false} PowersAscend(a: nat, b: nat)
    requires a <= b
    ensures Pow10(a) <= Pow10(b)
    decreases b
  {
    if a < b {
      PowersAscend(a, b - 1);
    }
  }

  lemma PrefixIsIgnored(a: string, b: string)
    ensures TextLess(PREFIX + a, PREFIX + b) <==> TextLess(a, b)
  {
    assert (PREFIX + a)[1..] == "P-" + a && (PREFIX + b)[1..] == "P-" + b;
    assert ("P-" + a)[1..] == "-" + a && ("P-" + b)[1..] == "-" + b;
    assert ("-" + a)[1..] == a && ("-" + b)[1..] == b;
    assert TextLess(PREFIX + a, PREFIX + b) <==> TextLess("P-" + a, "P-" + b);
    assert TextLess("P-" + a, "P-" + b) <==> TextLess("-" + a, "-" + b);
  }

  /** Comparing (length, text) of two member numbers is comparing their sequences, across
      the 9999 to 10000 boundary and every later one. */
  lemma RosterOrderIsNumeric(m: nat, n: nat)
    requires 0 < m && 0 < n
    ensures Before(MemberNo(m), MemberNo(n)) <==> m < n
  {
    PrefixIsIgnored(Padded(m), Padded(n));
    if |Padded(m)| == |Padded(n)| {
      TextIsNumeric(Padded(m), Padded(n));
      PaddedValue(m);
      PaddedValue(n);
    } else if |Padded(m)| < |Padded(n)| {
      LongerIsBigger(m, n);
    } else {
      LongerIsBigger(n, m);
    }
  }

  /** The bare text order is not: it puts 10000 before 9999. */
  lemma BareTextOrderBreaks()
    ensures TextLess(MemberNo(10000), MemberNo(9999)) && Before(MemberNo(9999), MemberNo(10000))
  {
    assert Digits(9) == "9" && Digits(99) == "99" && Digits(999) == "999" && Digits(9999) == "9999";
    assert Digits(1) == "1" && Digits(10) == "10" && Digits(100) == "100" && Digits(1000) == "1000";
    assert Digits(10000) == "10000";
    PrefixIsIgnored("10000", "9999");
    assert "10000"[0] < "9999"[0];
  }

  // ---------------------------------------------------------------------------
  // Pages
  // ---------------------------------------------------------------------------

  datatype Page = Page(items: seq<string>, next: Option<string>)

  /** GP- and at least four digits, bounded in length. */
  predicate CursorOk(c: string) {
    |c| <= CURSOR_MAX && |c| >= 7 && c[..3] == PREFIX && forall i | 3 <= i < |c| :: IsDigit(c[i])
  }

  function Clamp(limit: int): (n: nat)
    ensures 1 <= n <= 100 && (1 <= limit <= 100 ==> n == limit) && (n < limit ==> n == 100) && (limit < n ==> n == 1)
  {
    if limit < 1 then 1 else if limit > 100 then 100 else limit
  }

  /** The rows after the cursor, in roster order. */
  function AfterCursor(rows: seq<string>, cursor: string): seq<string> {
    if rows == [] then []
    else
      var rest := AfterCursor(rows[1..], cursor);
      if Before(cursor, rows[0]) then [rows[0]] + rest else rest
  }

  ghost predicate Ascending(seqs: seq<nat>) {
    (forall i | 0 <= i < |seqs| :: seqs[i] > 0) && forall i, j | 0 <= i < j < |seqs| :: seqs[i] < seqs[j]
  }

  type Sequences = s: seq<nat> | forall i | 0 <= i < |s| :: s[i] > 0 witness []

  function Numbers(seqs: Sequences): (rows: seq<string>)
    ensures |rows| == |seqs|
    ensures forall i | 0 <= i < |rows| :: rows[i] == MemberNo(seqs[i])
  {
    seq(|seqs|, i requires 0 <= i < |seqs| => MemberNo(seqs[i]))
  }

  /** Row `k` against the rest: everything up to it is not after it, everything behind is. */
  ghost predicate Splits(rows: seq<string>, cursor: string, k: nat) {
    && k < |rows|
    && (forall i | 0 <= i <= k :: !Before(cursor, rows[i]))
    && (forall i | k < i < |rows| :: Before(cursor, rows[i]))
  }

  lemma NumbersSplit(seqs: Sequences, rows: seq<string>, k: nat, cursor: string)
    requires Ascending(seqs) && rows == Numbers(seqs) && k < |seqs| && cursor == MemberNo(seqs[k])
    ensures Splits(rows, cursor, k)
  {
    forall i | 0 <= i < |seqs| ensures Before(cursor, rows[i]) <==> k < i {
      RosterOrderIsNumeric(seqs[k], seqs[i]);
    }
  }

  lemma {:induction false} AllAfter(rows: seq<string>, cursor: string)
    requires forall i | 0 <= i < |rows| :: Before(cursor, rows[i])
    ensures AfterCursor(rows, cursor) == rows
  {
    if rows != [] {
      AllAfter(rows[1..], cursor);
    }
  }

  /** Resuming after a served row yields exactly the rows behind it. */
  lemma {:induction false} ResumesAfter(rows: seq<string>, cursor: string, k: nat)
    requires Splits(rows, cursor, k)
    ensures AfterCursor(rows, cursor) == rows[k + 1..]
    decreases k
  {
    assert !Before(cursor, rows[0]);
    if k > 0 {
      ResumesAfter(rows[1..], cursor, k - 1);
    } else {
      AllAfter(rows[1..], cursor);
    }
  }

  /** A served number comes back as a valid cursor exactly when it fits the bound. */
  lemma ServedCursorIsAccepted(n: nat)
    requires n > 0
    ensures CursorOk(MemberNo(n)) <==> |MemberNo(n)| <= CURSOR_MAX
  {
    assert MemberNo(n)[..3] == PREFIX;
  }

  /** Four digits up to 9999, and as many as the number has beyond. */
  lemma PaddedLength(n: nat, digits: nat)
    requires n > 0 && digits >= 4
    ensures |Padded(n)| <= digits <==> n < Pow10(digits)
  {
    PaddedValue(n);
    ValueBounded(Padded(n));
    DigitsAreMinimal(n);
    if |Padded(n)| <= digits {
      PowersAscend(|Padded(n)|, digits);
    } else {
      PowersAscend(digits, |Padded(n)| - 1);
    }
  }

  /** The prefix leaves the bound room for 29 digits: those numbers, and no others, come back
      as valid cursors. */
  lemma CursorsAreBounded(n: nat, digits: nat)
    requires n > 0 && digits == CURSOR_MAX - |PREFIX|
    ensures digits == 29 && (CursorOk(MemberNo(n)) <==> n < Pow10(digits))
  {
    ServedCursorIsAccepted(n);
    PaddedLength(n, digits);
  }

  /** A page starts from the rows behind the cursor, all of them and no others, wherever the
      cursor comes from. */
  lemma {:induction false} AfterIsBehind(rows: seq<string>, cursor: string, row: string)
    ensures row in AfterCursor(rows, cursor) <==> row in rows && Before(cursor, row)
  {
    if rows != [] {
      assert row in rows <==> row == rows[0] || row in rows[1..];
      AfterIsBehind(rows[1..], cursor, row);
    }
  }

  function CursorAt(rows: seq<string>, k: nat): Option<string>
    requires k <= |rows|
  {
    if k == 0 then None else Some(rows[k - 1])
  }

  /** Wherever a served row is accepted as a cursor, it leads to the row behind it. */
  ghost predicate Resumes(rows: seq<string>) {
    forall k | 0 < k <= |rows| && CursorOk(rows[k - 1]) :: AfterCursor(rows, rows[k - 1]) == rows[k..]
  }

  lemma NumbersResume(seqs: Sequences, rows: seq<string>)
    requires Ascending(seqs) && rows == Numbers(seqs)
    ensures Resumes(rows)
  {
    forall k | 0 < k <= |rows| ensures AfterCursor(rows, rows[k - 1]) == rows[k..] {
      NumbersSplit(seqs, rows, k - 1, rows[k - 1]);
      ResumesAfter(rows, rows[k - 1], k - 1);
    }
  }

  /** Numbers only get longer, and one is a cursor exactly when it fits the bound. */
  ghost predicate LengthsAscend(rows: seq<string>) {
    && (forall i, j | 0 <= i < j < |rows| :: |rows[i]| <= |rows[j]|)
    && (forall i | 0 <= i < |rows| :: CursorOk(rows[i]) <==> |rows[i]| <= CURSOR_MAX)
  }

  lemma NumbersLengthen(seqs: Sequences, rows: seq<string>)
    requires Ascending(seqs) && rows == Numbers(seqs)
    ensures LengthsAscend(rows)
  {
    forall i | 0 <= i < |rows| ensures CursorOk(rows[i]) <==> |rows[i]| <= CURSOR_MAX {
      ServedCursorIsAccepted(seqs[i]);
    }
    forall i, j | 0 <= i < j < |rows| ensures |rows[i]| <= |rows[j]| {
      RosterOrderIsNumeric(seqs[i], seqs[j]);
    }
  }

  /** The rows behind a cursor; without one, all of them. */
  function Behind(rows: seq<string>, cursor: Option<string>): seq<string> {
    if cursor.Some? then AfterCursor(rows, cursor.value) else rows
  }

  /** One request: an invalid cursor is refused; otherwise the next rows behind it, as many as
      the limit allows, with the last of them as the next cursor exactly when more follow. */
  method ServePage(rows: seq<string>, cursor: Option<string>, limit: int) returns (page: Option<Page>)
    ensures page == None <==> cursor.Some? && !CursorOk(cursor.value)
    ensures page.Some? ==>
              && page.value.items <= Behind(rows, cursor)
              && |page.value.items| == Min(|Behind(rows, cursor)|, Clamp(limit))
              && (page.value.next.Some? <==> |Behind(rows, cursor)| > |page.value.items|)
              && (page.value.next.Some? ==> page.value.next.value == page.value.items[Clamp(limit) - 1])
  {
    if cursor.Some? && !CursorOk(cursor.value) {
      return None;
    }
    var size := Clamp(limit);
    var fetched := rows;
    if cursor.Some? {
      fetched := AfterCursor(rows, cursor.value);
    }
    if |fetched| > size + 1 {
      fetched := fetched[..size + 1];
    }
    var items, next := fetched, None;
    if |fetched| > size {
      items := fetched[..size];
      next := Some(items[|items| - 1]);
    }
    page := Some(Page(items, next));
  }

  function Min(a: nat, b: nat): nat { if a <= b then a else b }

  /** The page a walk gets after `k` rows is the next one of them. */
  method NextPage(rows: seq<string>, cursor: Option<string>, limit: int, ghost k: nat) returns (page: Option<Page>)
    requires Resumes(rows) && k <= |rows| && cursor == CursorAt(rows, k)
    ensures page == None <==> k > 0 && !CursorOk(rows[k - 1])
    ensures page.Some? ==>
              var n := |page.value.items|;
              && n == Min(|rows| - k, Clamp(limit)) && rows[..k] + page.value.items == rows[..k + n]
              && page.value.next == if k + n < |rows| then CursorAt(rows, k + n) else None
  {
    page := ServePage(rows, cursor, limit);
    if page.Some? {
      assert page.value.items == rows[k..][..|page.value.items|];
    }
  }

  /** How many pages a walk over `rest` rows takes. */
  function Pages(rest: nat, size: nat): nat
    requires size > 0
  {
    if rest == 0 then 1 else CeilDiv(rest, size)
  }

  lemma OnePage(rest: nat, size: nat)
    requires size > 0
    ensures Pages(rest, size) == 1 + if rest > size then Pages(rest - size, size) else 0
  {
    assert CeilDiv(0, size) == 0;
  }

  /** The number of rows before the last page. */
  function LastStart(n: nat, size: nat): (k: nat)
    requires size > 0
    ensures k <= n && (n > 0 ==> k < n)
  {
    if n <= size then 0 else size + LastStart(n - size, size)
  }

  /** All pages before the last are full, and the last one is not empty. */
  lemma {:induction false} LastStartIs(n: nat, size: nat) returns (full: nat)
    requires n > 0 && size > 0
    ensures LastStart(n, size) == full * size && n - size <= LastStart(n, size) < n
  {
    if n <= size {
      full := 0;
    } else {
      var rest := LastStartIs(n - size, size);
      full := rest + 1;
    }
  }

  /** What the last page's cursor says about the whole walk. */
  predicate WalkCompletes(rows: seq<string>, size: nat)
    requires size > 0
  {
    var last := LastStart(|rows|, size);
    last == 0 || |rows[last - 1]| <= CURSOR_MAX
  }

  method Walk(rows: seq<string>, limit: int) returns (seen: seq<string>, pages: nat, refused: bool)
    requires Resumes(rows) && LengthsAscend(rows)
    ensures refused <==> !WalkCompletes(rows, Clamp(limit))
    ensures !refused ==> seen == rows && pages == Pages(|rows|, Clamp(limit))
    ensures refused ==> 0 < |seen| < |rows| && seen == rows[..|seen|] && |rows[|seen| - 1]| > CURSOR_MAX
  {
    var cursor, more := None, true;
    ghost var done, size := 0, Clamp(limit);
    seen, pages, refused := [], 0, false;
    while more
      invariant done <= |rows| && seen == rows[..done]
      invariant more ==> cursor == CursorAt(rows, done) && (done < |rows| || done == 0)
      invariant more ==> LastStart(|rows|, size) == done + LastStart(|rows| - done, size)
      invariant Pages(|rows|, size) == pages + if more then Pages(|rows| - done, size) else 0
      invariant !more ==> done == |rows| && WalkCompletes(rows, size)
      decreases |rows| - done, more
    {
      OnePage(|rows| - done, size);
      var page := NextPage(rows, cursor, limit, done);
      if page == None {
        assert |rows[done - 1]| <= |rows[LastStart(|rows|, size) - 1]|;
        refused := true;
        return;
      }
      seen, pages, more, cursor := seen + page.value.items, pages + 1, page.value.next.Some?, page.value.next;
      done := done + |page.value.items|;
    }
    assert rows[..|rows|] == rows;
  }

  /** Follow the cursors from the first page on: every member of the branch is listed exactly
      once, in the order of the sequences, whatever the page size, exactly when the number the
      last page starts from fits the cursor bound; otherwise the walk is refused at a number
      that does not fit. */
  method WalkRoster(seqs: Sequences, limit: int) returns (seen: seq<string>, pages: nat, refused: bool)
    requires Ascending(seqs)
    ensures refused <==> !WalkCompletes(Numbers(seqs), Clamp(limit))
    ensures !refused ==> seen == Numbers(seqs) && pages == Pages(|seqs|, Clamp(limit))
    ensures refused ==> seen < Numbers(seqs) && seen != [] && |seen[|seen| - 1]| > CURSOR_MAX
  {
    var rows := Numbers(seqs);
    NumbersResume(seqs, rows);
    NumbersLengthen(seqs, rows);
    seen, pages, refused := Walk(rows, limit);
  }
}
