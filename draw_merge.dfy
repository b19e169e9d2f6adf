/**
 * The merge fetch-previous-draws performs, stated over the outcome of each
 * fetch: starting from the cached rows, each fetch while fewer than `limit`
 * rows are held either fails (no row) or yields a record, which is appended
 * unless its draw date is already held and is upserted into the table when
 * its save succeeds; at the end the rows are sorted newest first.
 */
module DrawMerge {
  import opened Wrappers
  import opened Text
  import opened Records
  import opened LotteryTable

  predicate DistinctDates(rows: seq<Row>) {
    forall i, j :: 0 <= i < j < |rows| ==> rows[i].drawDate != rows[j].drawDate
  }

  /** The set of draw dates held, as `new Set(results.map(r => r.draw_date))` builds it. */
  function DatesOf(rows: seq<Row>): set<string> {
    set i | 0 <= i < |rows| :: rows[i].drawDate
  }

  lemma DatesOfHeld(rows: seq<Row>, d: string)
    ensures d in DatesOf(rows) <==> HasDate(rows, d)
  {
  }

  lemma DatesOfAppend(rows: seq<Row>, row: Row)
    ensures DatesOf(rows + [row]) == DatesOf(rows) + {row.drawDate}
  {
    assert (rows + [row])[|rows|] == row;
    forall d | d in DatesOf(rows) ensures d in DatesOf(rows + [row]) {
      var i :| 0 <= i < |rows| && rows[i].drawDate == d;
      assert (rows + [row])[i] == rows[i];
    }
  }

  /** A newest-first list has no repeated date. */
  lemma NewestFirstDistinct(rows: seq<Row>)
    requires NewestFirst(rows)
    ensures DistinctDates(rows)
  {
    forall i, j | 0 <= i < j < |rows|
      ensures rows[i].drawDate != rows[j].drawDate
    {
      StrBeforeIrreflexive(rows[i].drawDate);
    }
  }

  // ---------------------------------------------------------------------
  // the loop, as a fold over the fetch outcomes

  /** One fetch's effect on the results: a record whose date is not yet held is appended. */
  function Absorb(results: seq<Row>, outcome: Option<Row>): seq<Row> {
    if outcome.Some? && outcome.value.drawDate !in DatesOf(results) then results + [outcome.value] else results
  }

  /** The results after the first `n` keys; once `limit` rows are held the loop has stopped. */
  function Gathered(limit: nat, outcomes: seq<Option<Row>>, n: nat, cached: seq<Row>): seq<Row>
    requires n <= |outcomes|
    decreases n
  {
    if n == 0 then cached
    else
      var prev := Gathered(limit, outcomes, n - 1, cached);
      if |prev| >= limit then prev else Absorb(prev, outcomes[n - 1])
  }

  /** The table after the first `n` keys: each appended record is upserted when its save succeeds. */
  function StoredRows(
    rows: map<string, Row>, limit: nat, outcomes: seq<Option<Row>>, saves: seq<bool>, n: nat, cached: seq<Row>)
    : map<string, Row>
    requires n <= |outcomes| && |saves| == |outcomes|
    decreases n
  {
    if n == 0 then rows
    else
      var before := StoredRows(rows, limit, outcomes, saves, n - 1, cached);
      var prev := Gathered(limit, outcomes, n - 1, cached);
      var outcome := outcomes[n - 1];
      if |prev| < limit && outcome.Some? && outcome.value.drawDate !in DatesOf(prev) && saves[n - 1] then
        Upserted(before, outcome.value)
      else before
  }

  /** `row` is the record one of the first `n` fetches yielded. */
  ghost predicate FetchedAmong(outcomes: seq<Option<Row>>, n: nat, row: Row)
    requires n <= |outcomes|
  {
    exists j :: 0 <= j < n && outcomes[j] == Some(row)
  }

  /** `row` is the record one of the first `n` fetches yielded and saved. */
  ghost predicate SavedAmong(outcomes: seq<Option<Row>>, saves: seq<bool>, n: nat, row: Row)
    requires n <= |outcomes| && |saves| == |outcomes|
  {
    exists j :: 0 <= j < n && outcomes[j] == Some(row) && saves[j]
  }

  // ---------------------------------------------------------------------
  // what the fold gathers

  /** Earlier results are a prefix of later ones: the loop only appends. */
  lemma {:induction false} GatheredPrefix(limit: nat, outcomes: seq<Option<Row>>, j: nat, n: nat, cached: seq<Row>)
    requires j <= n <= |outcomes|
    ensures var early, late := Gathered(limit, outcomes, j, cached), Gathered(limit, outcomes, n, cached);
      |early| <= |late| && late[..|early|] == early
    decreases n
  {
    if j < n {
      GatheredPrefix(limit, outcomes, j, n - 1, cached);
      var early := Gathered(limit, outcomes, j, cached);
      var mid := Gathered(limit, outcomes, n - 1, cached);
      var late := Gathered(limit, outcomes, n, cached);
      assert |mid| <= |late| && late[..|mid|] == mid;
      assert late[..|early|] == mid[..|early|];
    }
  }

  /** The results only grow. */
  lemma {:induction false} GatheredGrows(limit: nat, outcomes: seq<Option<Row>>, j: nat, n: nat, cached: seq<Row>)
    requires j <= n <= |outcomes|
    ensures |Gathered(limit, outcomes, j, cached)| <= |Gathered(limit, outcomes, n, cached)|
    decreases n
  {
    if j < n {
      GatheredGrows(limit, outcomes, j, n - 1, cached);
    }
  }

  /** If the last fetch happened below the limit, every earlier one did too. */
  lemma EveryFetchBelowLimit(limit: nat, outcomes: seq<Option<Row>>, n: nat, cached: seq<Row>)
    requires n <= |outcomes|
    requires n > 0 ==> |Gathered(limit, outcomes, n - 1, cached)| < limit
    ensures forall j :: 0 <= j < n ==> |Gathered(limit, outcomes, j, cached)| < limit
  {
    forall j | 0 <= j < n
      ensures |Gathered(limit, outcomes, j, cached)| < limit
    {
      GatheredGrows(limit, outcomes, j, n - 1, cached);
    }
  }

  /** Starting from at most `limit` cached rows, the loop never holds more than `limit`. */
  lemma {:induction false} GatheredBounded(limit: nat, outcomes: seq<Option<Row>>, n: nat, cached: seq<Row>)
    requires n <= |outcomes| && |cached| <= limit
    ensures |Gathered(limit, outcomes, n, cached)| <= limit
    decreases n
  {
    if n > 0 {
      GatheredBounded(limit, outcomes, n - 1, cached);
    }
  }

  /** Once `limit` rows are held nothing changes any more. */
  lemma {:induction false} GatheredSettles(limit: nat, outcomes: seq<Option<Row>>, j: nat, n: nat, cached: seq<Row>)
    requires j <= n <= |outcomes| && |Gathered(limit, outcomes, j, cached)| >= limit
    ensures Gathered(limit, outcomes, n, cached) == Gathered(limit, outcomes, j, cached)
    decreases n
  {
    if j < n {
      GatheredSettles(limit, outcomes, j, n - 1, cached);
    }
  }

  /** Starting from rows with distinct dates, no two results share a date. */
  lemma {:induction false} GatheredDistinct(limit: nat, outcomes: seq<Option<Row>>, n: nat, cached: seq<Row>)
    requires n <= |outcomes| && DistinctDates(cached)
    ensures DistinctDates(Gathered(limit, outcomes, n, cached))
    decreases n
  {
    if n > 0 {
      GatheredDistinct(limit, outcomes, n - 1, cached);
      var prev := Gathered(limit, outcomes, n - 1, cached);
      var outcome := outcomes[n - 1];
      if |prev| < limit && outcome.Some? && outcome.value.drawDate !in DatesOf(prev) {
        forall i | 0 <= i < |prev| ensures prev[i].drawDate != outcome.value.drawDate {
          assert prev[i].drawDate in DatesOf(prev);
        }
      }
    }
  }

  /** The cached rows come first, and every row after them is a record some fetch yielded. */
  lemma {:induction false} GatheredFromFetches(limit: nat, outcomes: seq<Option<Row>>, n: nat, cached: seq<Row>)
    requires n <= |outcomes|
    ensures var g := Gathered(limit, outcomes, n, cached);
      |cached| <= |g| && g[..|cached|] == cached
      && forall m :: |cached| <= m < |g| ==> FetchedAmong(outcomes, n, g[m])
    decreases n
  {
    if n > 0 {
      GatheredFromFetches(limit, outcomes, n - 1, cached);
      var prev := Gathered(limit, outcomes, n - 1, cached);
      var g := Gathered(limit, outcomes, n, cached);
      GatheredPrefix(limit, outcomes, n - 1, n, cached);
      forall m | |cached| <= m < |g|
        ensures FetchedAmong(outcomes, n, g[m])
      {
        if m < |prev| {
          assert g[m] == prev[m];
          var j :| 0 <= j < n - 1 && outcomes[j] == Some(prev[m]);
        } else {
          assert outcomes[n - 1] == Some(g[m]);
        }
      }
    }
  }

  /** After absorbing a record, its date is held. */
  lemma AbsorbHoldsDate(results: seq<Row>, outcome: Option<Row>)
    requires outcome.Some?
    ensures HasDate(Absorb(results, outcome), outcome.value.drawDate)
  {
    DatesOfHeld(results, outcome.value.drawDate);
    if outcome.value.drawDate !in DatesOf(results) {
      assert (results + [outcome.value])[|results|] == outcome.value;
    }
  }

  /** A date held by a prefix is held by the whole. */
  lemma HasDateInExtension(early: seq<Row>, late: seq<Row>, date: string)
    requires |early| <= |late| && late[..|early|] == early && HasDate(early, date)
    ensures HasDate(late, date)
  {
    var i :| 0 <= i < |early| && early[i].drawDate == date;
    assert late[i] == early[i];
  }

  /** The date of a record fetched at step `j` is held from then on. */
  lemma FetchedDateHeld(limit: nat, outcomes: seq<Option<Row>>, j: nat, n: nat, cached: seq<Row>)
    requires j < n <= |outcomes|
    requires |Gathered(limit, outcomes, j, cached)| < limit && outcomes[j].Some?
    ensures HasDate(Gathered(limit, outcomes, n, cached), outcomes[j].value.drawDate)
  {
    AbsorbHoldsDate(Gathered(limit, outcomes, j, cached), outcomes[j]);
    GatheredPrefix(limit, outcomes, j + 1, n, cached);
    HasDateInExtension(Gathered(limit, outcomes, j + 1, cached), Gathered(limit, outcomes, n, cached),
      outcomes[j].value.drawDate);
  }

  /** The table keeps every row it had. */
  lemma {:induction false} StoredRowsKeepKeys(
    rows: map<string, Row>, limit: nat, outcomes: seq<Option<Row>>, saves: seq<bool>, n: nat, cached: seq<Row>)
    requires n <= |outcomes| && |saves| == |outcomes|
    ensures rows.Keys <= StoredRows(rows, limit, outcomes, saves, n, cached).Keys
    decreases n
  {
    if n > 0 {
      StoredRowsKeepKeys(rows, limit, outcomes, saves, n - 1, cached);
    }
  }

  /** Each row of the table is as it was, or a record the loop fetched and saved. */
  lemma {:induction false} StoredRowOrigin(
    rows: map<string, Row>, limit: nat, outcomes: seq<Option<Row>>, saves: seq<bool>, n: nat, cached: seq<Row>, k: string)
    requires n <= |outcomes| && |saves| == |outcomes|
    requires k in StoredRows(rows, limit, outcomes, saves, n, cached)
    ensures var after := StoredRows(rows, limit, outcomes, saves, n, cached);
      (k in rows && after[k] == rows[k]) || SavedAmong(outcomes, saves, n, after[k])
    decreases n
  {
    if n > 0 {
      var before := StoredRows(rows, limit, outcomes, saves, n - 1, cached);
      var after := StoredRows(rows, limit, outcomes, saves, n, cached);
      if k in before && after[k] == before[k] {
        StoredRowOrigin(rows, limit, outcomes, saves, n - 1, cached, k);
      } else {
        assert outcomes[n - 1] == Some(after[k]) && saves[n - 1];
      }
    }
  }

  /** Every write keeps the rows under their own draw dates. */
  lemma {:induction false} StoredRowsKeyedByDate(
    rows: map<string, Row>, limit: nat, outcomes: seq<Option<Row>>, saves: seq<bool>, n: nat, cached: seq<Row>)
    requires n <= |outcomes| && |saves| == |outcomes| && KeyedByDate(rows)
    ensures KeyedByDate(StoredRows(rows, limit, outcomes, saves, n, cached))
    decreases n
  {
    if n > 0 {
      StoredRowsKeyedByDate(rows, limit, outcomes, saves, n - 1, cached);
    }
  }

  /**
   * A record fetched below the limit under a date not yet held, and saved,
   * is the table's row for that date from then on: later fetches of that
   * date are skipped.
   */
  lemma {:induction false} FetchedRecordStored(
    rows: map<string, Row>, limit: nat, outcomes: seq<Option<Row>>, saves: seq<bool>, j: nat, n: nat, cached: seq<Row>)
    requires j < n <= |outcomes| && |saves| == |outcomes|
    requires |Gathered(limit, outcomes, j, cached)| < limit && outcomes[j].Some? && saves[j]
    requires outcomes[j].value.drawDate !in DatesOf(Gathered(limit, outcomes, j, cached))
    ensures var after := StoredRows(rows, limit, outcomes, saves, n, cached);
      outcomes[j].value.drawDate in after && after[outcomes[j].value.drawDate] == outcomes[j].value
    decreases n
  {
    if n > j + 1 {
      FetchedRecordStored(rows, limit, outcomes, saves, j, n - 1, cached);
      FetchedDateHeld(limit, outcomes, j, n - 1, cached);
      DatesOfHeld(Gathered(limit, outcomes, n - 1, cached), outcomes[j].value.drawDate);
    }
  }

  /** The first fetch of a date that no cached row holds finds that date not yet held. */
  lemma FirstFetchOfDateIsNew(
    before: map<string, Row>, limit: nat, outcomes: seq<Option<Row>>, j: nat, cached: seq<Row>)
    requires j < |outcomes| && outcomes[j].Some?
    requires forall i :: 0 <= i < |cached| ==> cached[i].drawDate in NonLatestKeys(before)
    requires outcomes[j].value.drawDate !in NonLatestKeys(before)
    requires forall m :: 0 <= m < j && outcomes[m].Some? ==> outcomes[m].value.drawDate != outcomes[j].value.drawDate
    ensures outcomes[j].value.drawDate !in DatesOf(Gathered(limit, outcomes, j, cached))
  {
    var g := Gathered(limit, outcomes, j, cached);
    GatheredFromFetches(limit, outcomes, j, cached);
    forall i | 0 <= i < |g|
      ensures g[i].drawDate != outcomes[j].value.drawDate
    {
      if i < |cached| {
        assert g[..|cached|][i] == cached[i];
      } else {
        assert FetchedAmong(outcomes, j, g[i]);
      }
    }
  }

  // ---------------------------------------------------------------------
  // sorting newest first

  /** Inserts a row with a new date into a newest-first list. */
  function InsertByDate(sorted: seq<Row>, row: Row): (r: seq<Row>)
    requires NewestFirst(sorted) && !HasDate(sorted, row.drawDate)
    ensures multiset(r) == multiset(sorted) + multiset{row}
    ensures NewestFirst(r)
    decreases |sorted|
  {
    if sorted == [] then [row]
    else if StrBefore(sorted[0].drawDate, row.drawDate) then
      InsertAtFront(sorted, row);
      [row] + sorted
    else
      assert forall i :: 0 <= i < |sorted| - 1 ==> sorted[1..][i] == sorted[i + 1];
      assert sorted[0].drawDate != row.drawDate;
      var rest := InsertByDate(sorted[1..], row);
      InsertBehindHead(sorted, row, rest);
      assert sorted == [sorted[0]] + sorted[1..];
      [sorted[0]] + rest
  }

  lemma InsertAtFront(sorted: seq<Row>, row: Row)
    requires NewestFirst(sorted) && sorted != [] && StrBefore(sorted[0].drawDate, row.drawDate)
    ensures NewestFirst([row] + sorted)
  {
    forall i, j | 0 <= i < j < |sorted| + 1
      ensures StrBefore(([row] + sorted)[j].drawDate, ([row] + sorted)[i].drawDate)
    {
      if i == 0 && j > 1 {
        StrBeforeTransitive(sorted[j - 1].drawDate, sorted[0].drawDate, row.drawDate);
      }
    }
  }

  lemma InsertBehindHead(sorted: seq<Row>, row: Row, rest: seq<Row>)
    requires NewestFirst(sorted) && sorted != [] && NewestFirst(rest)
    requires !StrBefore(sorted[0].drawDate, row.drawDate) && sorted[0].drawDate != row.drawDate
    requires multiset(rest) == multiset(sorted[1..]) + multiset{row}
    ensures NewestFirst([sorted[0]] + rest)
  {
    StrBeforeTotal(sorted[0].drawDate, row.drawDate);
    forall j | 0 <= j < |rest|
      ensures StrBefore(rest[j].drawDate, sorted[0].drawDate)
    {
      assert rest[j] in multiset(rest);
      if rest[j] != row {
        assert rest[j] in multiset(sorted[1..]);
        var k :| 0 <= k < |sorted| - 1 && sorted[1..][k] == rest[j];
        assert sorted[k + 1] == rest[j];
      }
    }
  }

  /** A permutation of a prefix of rows with distinct dates does not hold the next row's date. */
  lemma NextDateIsNew(rows: seq<Row>, i: nat, sorted: seq<Row>)
    requires DistinctDates(rows) && i < |rows| && multiset(sorted) == multiset(rows[..i])
    ensures !HasDate(sorted, rows[i].drawDate)
  {
    forall k | 0 <= k < |sorted|
      ensures sorted[k].drawDate != rows[i].drawDate
    {
      assert sorted[k] in multiset(rows[..i]);
      var m :| 0 <= m < i && rows[..i][m] == sorted[k];
    }
  }

  /** `results.sort(...)` by draw date, newest first. */
  method SortNewestFirst(rows: seq<Row>) returns (sorted: seq<Row>)
    requires DistinctDates(rows)
    ensures multiset(sorted) == multiset(rows)
    ensures NewestFirst(sorted)
  {
    sorted := [];
    var i := 0;
    while i < |rows|
      invariant 0 <= i <= |rows|
      invariant multiset(sorted) == multiset(rows[..i])
      invariant NewestFirst(sorted)
    {
      NextDateIsNew(rows, i, sorted);
      sorted := InsertByDate(sorted, rows[i]);
      assert rows[..i + 1] == rows[..i] + [rows[i]];
      i := i + 1;
    }
    assert rows[..i] == rows;
  }

  /** A permutation holds the same dates. */
  lemma HasDateOfPermutation(a: seq<Row>, b: seq<Row>, date: string)
    requires multiset(a) == multiset(b) && HasDate(a, date)
    ensures HasDate(b, date)
  {
    var i :| 0 <= i < |a| && a[i].drawDate == date;
    assert a[i] in multiset(b);
    var j :| 0 <= j < |b| && b[j] == a[i];
  }

  /** A row of a permutation is a row of the original. */
  lemma InPermutation(a: seq<Row>, b: seq<Row>, i: nat)
    requires multiset(a) == multiset(b) && i < |b|
    ensures exists j :: 0 <= j < |a| && a[j] == b[i]
  {
    assert b[i] in multiset(a);
  }

  // ---------------------------------------------------------------------
  // the answer

  /**
   * What the sorted results hold, when every fetch made happened while
   * fewer than `limit` rows were held: every cached row's date, every
   * fetched record's date, nothing else, and no more than `limit` rows.
   */
  lemma SortedAnswer(limit: nat, outcomes: seq<Option<Row>>, n: nat, cached: seq<Row>, sorted: seq<Row>)
    requires n <= |outcomes| && |cached| <= limit
    requires multiset(sorted) == multiset(Gathered(limit, outcomes, n, cached))
    requires forall j :: 0 <= j < n ==> |Gathered(limit, outcomes, j, cached)| < limit
    ensures |sorted| <= limit
    ensures forall i :: 0 <= i < |cached| ==> HasDate(sorted, cached[i].drawDate)
    ensures forall j :: 0 <= j < n && outcomes[j].Some? ==> HasDate(sorted, outcomes[j].value.drawDate)
    ensures forall i :: 0 <= i < |sorted| ==> sorted[i] in cached || FetchedAmong(outcomes, n, sorted[i])
  {
    var g := Gathered(limit, outcomes, n, cached);
    GatheredBounded(limit, outcomes, n, cached);
    assert |sorted| == |g| by { assert |multiset(sorted)| == |multiset(g)|; }
    GatheredFromFetches(limit, outcomes, n, cached);
    forall i | 0 <= i < |cached|
      ensures HasDate(sorted, cached[i].drawDate)
    {
      assert g[i] == cached[i];
      HasDateOfPermutation(g, sorted, cached[i].drawDate);
    }
    forall j | 0 <= j < n && outcomes[j].Some?
      ensures HasDate(sorted, outcomes[j].value.drawDate)
    {
      FetchedDateHeld(limit, outcomes, j, n, cached);
      HasDateOfPermutation(g, sorted, outcomes[j].value.drawDate);
    }
    forall i | 0 <= i < |sorted|
      ensures sorted[i] in cached || FetchedAmong(outcomes, n, sorted[i])
    {
      InPermutation(g, sorted, i);
      var m :| 0 <= m < |g| && g[m] == sorted[i];
      if m < |cached| {
        assert g[..|cached|][m] == g[m];
      }
    }
  }

  /** Records that are never flagged latest add no latest row to the table. */
  lemma {:induction false} StoredRowsNoNewLatest(
    rows: map<string, Row>, limit: nat, outcomes: seq<Option<Row>>, saves: seq<bool>, n: nat, cached: seq<Row>)
    requires n <= |outcomes| && |saves| == |outcomes|
    requires forall j :: 0 <= j < |outcomes| && outcomes[j].Some? ==> !outcomes[j].value.isLatest
    ensures LatestKeys(StoredRows(rows, limit, outcomes, saves, n, cached)) <= LatestKeys(rows)
    decreases n
  {
    if n > 0 {
      StoredRowsNoNewLatest(rows, limit, outcomes, saves, n - 1, cached);
    }
  }

  /**
   * The answer to a request whose cache held too few rows, over the first
   * `n` outcomes: every cached previous draw and every fetched record's
   * date are answered and nothing else is; the table keeps every row,
   * gains only saved records and no latest flag.
   */
  ghost predicate MergedAnswer(
    before: map<string, Row>, after: map<string, Row>, outcomes: seq<Option<Row>>, saves: seq<bool>, n: nat,
    data: seq<Row>)
    requires n <= |outcomes| && |saves| == |outcomes|
  {
    && (forall k :: k in NonLatestKeys(before) ==> HasDate(data, k))
    && (forall j :: 0 <= j < n && outcomes[j].Some? ==> HasDate(data, outcomes[j].value.drawDate))
    && (forall i :: 0 <= i < |data| ==>
          (data[i].drawDate in NonLatestKeys(before) && before[data[i].drawDate] == data[i])
          || FetchedAmong(outcomes, n, data[i]))
    && before.Keys <= after.Keys
    && (forall k :: k in after ==> (k in before && after[k] == before[k]) || SavedAmong(outcomes, saves, n, after[k]))
    && LatestKeys(after) <= LatestKeys(before)
    // the first fetch of a date no previous draw held, when saved, replaces that date's row
    && (forall j :: 0 <= j < n && outcomes[j].Some? && saves[j]
          && outcomes[j].value.drawDate !in NonLatestKeys(before)
          && (forall m :: 0 <= m < j && outcomes[m].Some? ==> outcomes[m].value.drawDate != outcomes[j].value.drawDate)
          ==> outcomes[j].value.drawDate in after && after[outcomes[j].value.drawDate] == outcomes[j].value)
  }

  /** Seeded with all the cached previous draws, the fold and the sort give the merged answer. */
  lemma MergedAnswerHolds(
    before: map<string, Row>, limit: nat, outcomes: seq<Option<Row>>, saves: seq<bool>, n: nat,
    cached: seq<Row>, sorted: seq<Row>)
    requires n <= |outcomes| && |saves| == |outcomes| && |cached| <= limit
    requires forall j :: 0 <= j < |outcomes| && outcomes[j].Some? ==> !outcomes[j].value.isLatest
    requires forall i :: 0 <= i < |cached| ==> cached[i].drawDate in NonLatestKeys(before) && before[cached[i].drawDate] == cached[i]
    requires forall k :: k in NonLatestKeys(before) ==> HasDate(cached, k)
    requires multiset(sorted) == multiset(Gathered(limit, outcomes, n, cached))
    requires forall j :: 0 <= j < n ==> |Gathered(limit, outcomes, j, cached)| < limit
    ensures |sorted| <= limit
    ensures MergedAnswer(before, StoredRows(before, limit, outcomes, saves, n, cached), outcomes, saves, n, sorted)
  {
    var after := StoredRows(before, limit, outcomes, saves, n, cached);
    SortedAnswer(limit, outcomes, n, cached, sorted);
    forall k | k in NonLatestKeys(before)
      ensures HasDate(sorted, k)
    {
      var i :| 0 <= i < |cached| && cached[i].drawDate == k;
    }
    forall i | 0 <= i < |sorted| && sorted[i] in cached
      ensures sorted[i].drawDate in NonLatestKeys(before) && before[sorted[i].drawDate] == sorted[i]
    {
      var m :| 0 <= m < |cached| && cached[m] == sorted[i];
    }
    StoredRowsKeepKeys(before, limit, outcomes, saves, n, cached);
    forall k | k in after
      ensures (k in before && after[k] == before[k]) || SavedAmong(outcomes, saves, n, after[k])
    {
      StoredRowOrigin(before, limit, outcomes, saves, n, cached, k);
    }
    StoredRowsNoNewLatest(before, limit, outcomes, saves, n, cached);
    forall j | 0 <= j < n && outcomes[j].Some? && saves[j]
               && outcomes[j].value.drawDate !in NonLatestKeys(before)
               && (forall m :: 0 <= m < j && outcomes[m].Some? ==> outcomes[m].value.drawDate != outcomes[j].value.drawDate)
      ensures outcomes[j].value.drawDate in after && after[outcomes[j].value.drawDate] == outcomes[j].value
    {
      FirstFetchOfDateIsNew(before, limit, outcomes, j, cached);
      FetchedRecordStored(before, limit, outcomes, saves, j, n, cached);
    }
  }
}
