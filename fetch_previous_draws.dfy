/**
 * The fetch-previous-draws edge function: answer from the cached
 * non-latest rows when there are at least `limit` of them; otherwise seed
 * the results with them and fetch the draws `getRecentDrawDates(limit + 1)`
 * names, one after the other, until `limit` results are held, skipping
 * failed fetches and dates already held; then sort newest first and keep
 * `limit`.
 */
module FetchPreviousDraws {
  import opened Wrappers
  import opened Text
  import opened Calendar
  import opened ThaiDate
  import opened Records
  import opened Normaliser
  import opened LotteryTable
  import opened DrawMerge

  // ---------------------------------------------------------------------
  // getRecentDrawDates

  /** The slot the generator's first "previous draw" step lands on from today's date. */
  function FirstSlot(today: Date): (d: Date)
    requires ValidDate(today)
    ensures d.day == 1 || d.day == 16
    ensures 1 <= d.month <= 12
  {
    if today.day > 16 then Date(today.year, today.month, 16)
    else if today.day > 1 then Date(today.year, today.month, 1)
    else PrevMonth(Date(today.year, today.month, 16))
  }

  /**
   * The `i`-th date the generator yields. Its "previous draw" step and its
   * "previous slot" step both move back, so each date after the first is
   * the one before it moved back a whole month.
   */
  function RecentSlot(today: Date, i: nat): Date
    requires ValidDate(today)
    decreases i
  {
    if i == 0 then FirstSlot(today) else PrevMonth(RecentSlot(today, i - 1))
  }

  function RecentKey(today: Date, i: nat): string
    requires ValidDate(today)
  {
    BeKey(RecentSlot(today, i))
  }

  /** The first `n` dates the generator yields, in order. */
  function RecentSlots(today: Date, n: nat): (slots: seq<Date>)
    requires ValidDate(today)
    ensures |slots| == n
  {
    seq(n, i requires 0 <= i < n => RecentSlot(today, i))
  }

  /** The upstream key of each date. */
  function KeysOf(slots: seq<Date>): (keys: seq<string>)
    ensures |keys| == |slots|
  {
    seq(|slots|, i requires 0 <= i < |slots| => BeKey(slots[i]))
  }

  /** The first `n` keys the generator yields, in order. */
  function RecentKeys(today: Date, n: nat): (keys: seq<string>)
    requires ValidDate(today)
    ensures |keys| == n
  {
    KeysOf(RecentSlots(today, n))
  }

  /** Appending the next generated date extends the date list by one. */
  lemma PushSlot(today: Date, slots: seq<Date>, d: Date)
    requires ValidDate(today)
    requires slots == RecentSlots(today, |slots|) && d == RecentSlot(today, |slots|)
    ensures slots + [d] == RecentSlots(today, |slots| + 1)
  {
  }

  /** Appending a date appends its key. */
  lemma PushKey(slots: seq<Date>, d: Date)
    ensures KeysOf(slots + [d]) == KeysOf(slots) + [BeKey(d)]
  {
  }

  /** The "calculate previous draw date" step on (year, 0-based month, day). */
  function CalcStep(year: int, month: int, day: int): (int, int, int) {
    if day > 16 then (year, month, 16)
    else if day > 1 then (year, month, 1)
    else if month - 1 < 0 then (year - 1, 11, 16)
    else (year, month - 1, 16)
  }

  /** The "move to previous draw slot" step on (year, 0-based month, day). */
  function MoveStep(year: int, month: int, day: int): (int, int, int) {
    if day == 16 then (year, month, 1)
    else if month - 1 < 0 then (year - 1, 11, 16)
    else (year, month - 1, 16)
  }

  /** The generator's variables just before the iteration that yields slot `n`. */
  ghost predicate CursorAt(today: Date, n: nat, year: int, month: int, day: int)
    requires ValidDate(today)
  {
    && 0 <= month <= 11
    && (n == 0 ==> year == today.year && month == today.month - 1 && day == today.day)
    && (n > 0 && FirstSlot(today).day == 16 ==> day == 1 && Date(year, month + 1, 16) == RecentSlot(today, n - 1))
    && (n > 0 && FirstSlot(today).day == 1 ==> day == 16 && Date(year, month + 1, 1) == RecentSlot(today, n))
  }

  lemma CalcStepLandsOnSlot(today: Date, n: nat, year: int, month: int, day: int)
    requires ValidDate(today) && CursorAt(today, n, year, month, day)
    ensures var (y, m, d) := CalcStep(year, month, day);
      0 <= m <= 11 && Date(y, m + 1, d) == RecentSlot(today, n)
  {
  }

  lemma MoveStepReachesNextCursor(today: Date, n: nat, year: int, month: int, day: int)
    requires ValidDate(today) && 0 <= month <= 11 && Date(year, month + 1, day) == RecentSlot(today, n)
    ensures var (y, m, d) := MoveStep(year, month, day);
      CursorAt(today, n + 1, y, m, d)
  {
    RecentSlotIsDrawDay(today, n);
  }

  /** Midnight of every generated date is strictly before `now`. */
  lemma SlotBeforeNow(now: Moment, n: nat)
    requires ValidMoment(now)
    ensures MomentBefore(Midnight(RecentSlot(now.date, n)), now)
  {
    RecentSlotBeforeToday(now.date, n);
  }

  /** The "calculate previous draw date" step, as the generator writes it. */
  method StepToPreviousDraw(year: int, month: int, day: int) returns (y: int, m: int, d: int)
    ensures (y, m, d) == CalcStep(year, month, day)
  {
    y, m, d := year, month, day;
    if d > 16 {
      d := 16;
    } else if d > 1 {
      d := 1;
    } else {
      m := m - 1;
      if m < 0 {
        m := 11;
        y := y - 1;
      }
      d := 16;
    }
  }

  /** The "move to previous draw slot" step, as the generator writes it. */
  method StepToPreviousSlot(year: int, month: int, day: int) returns (y: int, m: int, d: int)
    ensures (y, m, d) == MoveStep(year, month, day)
  {
    y, m, d := year, month, day;
    if d == 16 {
      d := 1;
    } else {
      d := 16;
      m := m - 1;
      if m < 0 {
        m := 11;
        y := y - 1;
      }
    }
  }

  /** `getRecentDrawDates(count)` with `now` given. */
  method RecentDrawDates(now: Moment, count: nat) returns (dates: seq<string>)
    requires ValidMoment(now)
    ensures dates == RecentKeys(now.date, count)
  {
    dates := [];
    ghost var slots: seq<Date> := [];
    var year, month, day := now.date.year, now.date.month - 1, now.date.day;
    while |dates| < count
      invariant |dates| <= count
      invariant |slots| == |dates| && slots == RecentSlots(now.date, |slots|)
      invariant dates == KeysOf(slots)
      invariant CursorAt(now.date, |dates|, year, month, day)
      decreases count - |dates|
    {
      ghost var n := |dates|;
      CalcStepLandsOnSlot(now.date, n, year, month, day);
      year, month, day := StepToPreviousDraw(year, month, day);
      var drawDate := Date(year, month + 1, day);
      SlotBeforeNow(now, n);
      if MomentBefore(Midnight(drawDate), now) {
        PushSlot(now.date, slots, drawDate);
        PushKey(slots, drawDate);
        dates := dates + [BeKey(drawDate)];
        slots := slots + [drawDate];
      }
      MoveStepReachesNextCursor(now.date, n, year, month, day);
      year, month, day := StepToPreviousSlot(year, month, day);
    }
  }

  // ---------------------------------------------------------------------
  // what the generator yields

  /** Slot `i` lies `i` months before the first slot, on the same day of the month. */
  lemma {:induction false} RecentSlotPosition(today: Date, i: nat)
    requires ValidDate(today)
    ensures var slot := RecentSlot(today, i);
      && MonthIndex(slot) == MonthIndex(FirstSlot(today)) - i
      && slot.day == FirstSlot(today).day
      && 1 <= slot.month <= 12
    decreases i
  {
    if i > 0 {
      RecentSlotPosition(today, i - 1);
    }
  }

  /** Every generated date is a real draw day, and all share the first slot's day of the month. */
  lemma RecentSlotIsDrawDay(today: Date, i: nat)
    requires ValidDate(today)
    ensures ValidDate(RecentSlot(today, i)) && IsDrawDay(RecentSlot(today, i))
    ensures RecentSlot(today, i).day == FirstSlot(today).day
  {
    RecentSlotPosition(today, i);
  }

  /** Every generated date is strictly before today, so the `< now` guard always passes. */
  lemma RecentSlotBeforeToday(today: Date, i: nat)
    requires ValidDate(today)
    ensures DateBefore(RecentSlot(today, i), today)
  {
    RecentSlotPosition(today, i);
  }

  /** Later dates are strictly earlier: the list runs backwards in time. */
  lemma RecentSlotsDescending(today: Date, i: nat, j: nat)
    requires ValidDate(today) && i < j
    ensures DateBefore(RecentSlot(today, j), RecentSlot(today, i))
  {
    RecentSlotPosition(today, i);
    RecentSlotPosition(today, j);
  }

  /** The first slot is the most recent draw day strictly before today. */
  lemma FirstSlotIsLastPastDraw(today: Date, d: Date)
    requires ValidDate(today) && ValidDate(d) && IsDrawDay(d) && DateBefore(d, today)
    ensures DateBefore(FirstSlot(today), today)
    ensures !DateBefore(FirstSlot(today), d)
  {
  }

  /** The draw between generated dates `i + 1` and `i`: the other draw day of the month. */
  function SkippedDraw(today: Date, i: nat): Date
    requires ValidDate(today)
  {
    if FirstSlot(today).day == 16 then RecentSlot(today, i).(day := 1)
    else RecentSlot(today, i + 1).(day := 16)
  }

  /**
   * Between two consecutive generated dates lies a draw the generator never
   * yields: every other draw is skipped.
   */
  lemma AlternateDrawsSkipped(today: Date, i: nat)
    requires ValidDate(today)
    ensures var skipped := SkippedDraw(today, i);
      && ValidDate(skipped) && IsDrawDay(skipped)
      && DateBefore(RecentSlot(today, i + 1), skipped)
      && DateBefore(skipped, RecentSlot(today, i))
      && forall j: nat :: RecentSlot(today, j) != skipped
  {
    RecentSlotPosition(today, i);
    RecentSlotPosition(today, i + 1);
    forall j: nat
      ensures RecentSlot(today, j) != SkippedDraw(today, i)
    {
      RecentSlotPosition(today, j);
    }
  }

  /** Each key reads back as its slot, the year taken from the Buddhist Era. */
  lemma RecentKeyReadsBack(today: Date, i: nat)
    requires ValidDate(today) && RecentSlot(today, i).year >= -543
    ensures ParseBeKey(RecentKey(today, i)) == Some(RecentSlot(today, i))
  {
    RecentSlotIsDrawDay(today, i);
    BeKeyRoundTrip(RecentSlot(today, i));
  }

  /** Every key starts with the same day text, "16" or "01". */
  lemma RecentKeyDay(today: Date, i: nat)
    requires ValidDate(today) && RecentSlot(today, i).year >= -543
    ensures RecentKey(today, i)[..2] == if FirstSlot(today).day == 16 then "16" else "01"
  {
    RecentSlotIsDrawDay(today, i);
    BeKeyDayText(RecentSlot(today, i));
    assert PadStart2(NatToString(16)) == "16" && PadStart2(NatToString(1)) == "01";
  }

  // ---------------------------------------------------------------------
  // the handler

  /** `parseInt(url.searchParams.get('limit') || '5')`: a missing or empty parameter reads as five. */
  function RequestedLimit(param: Option<string>): (r: Option<int>)
    ensures param.None? || param.value == "" ==> r == Some(5)
  {
    var text := if param.Some? && param.value != "" then param.value else "5";
    ParseIntOfNatToString(5);
    JsParseInt(text)
  }

  datatype PreviousResponse = PreviousResponse(data: seq<Row>, cached: bool)

  /** The record stored for a fetched previous draw: never flagged latest. */
  function FetchedRecord(x: Extracted, fetchedAt: int): Row {
    BuildRecord(ParseThaiDate(x.date), x.date, x.prizes, x.running, false, fetchedAt)
  }

  /** What fetching one key yields: the record, or nothing when the fetch fails or its payload is unusable. */
  function Outcome(reply: Reply, fetchedAt: int): (o: Option<Row>)
    ensures o.Some? <==> ReadReply(reply).Ok?
    ensures o.Some? ==> && o.value.drawDate == ParseThaiDate(ReadReply(reply).value.date)
                        && o.value.drawDateThai == ReadReply(reply).value.date
                        && !o.value.isLatest && o.value.fetchedAt == fetchedAt
  {
    match ReadReply(reply)
    case Ok(x) => Some(FetchedRecord(x, fetchedAt))
    case Err(_) => None
  }

  function Outcomes(keys: seq<string>, upstream: string -> Reply, fetchedAt: int): seq<Option<Row>> {
    seq(|keys|, j requires 0 <= j < |keys| => Outcome(upstream(keys[j]), fetchedAt))
  }

  /** A fetched record is never flagged latest. */
  lemma OutcomesNeverLatest(keys: seq<string>, upstream: string -> Reply, fetchedAt: int)
    ensures var outcomes := Outcomes(keys, upstream, fetchedAt);
      forall j :: 0 <= j < |outcomes| && outcomes[j].Some? ==> !outcomes[j].value.isLatest
  {
  }

  function Saves(keys: seq<string>, saveOk: string -> bool): seq<bool> {
    seq(|keys|, j requires 0 <= j < |keys| => saveOk(keys[j]))
  }

  /** One iteration of the loop, for a key fetched while fewer than `limit` rows are held. */
  method FetchStep(
    table: Table, fetchedAt: int, limit: nat, keys: seq<string>, i: nat, cached: seq<Row>,
    upstream: string -> Reply, saveOk: string -> bool, ghost rows: map<string, Row>,
    results: seq<Row>, existing: set<string>)
    returns (results': seq<Row>, existing': set<string>)
    requires table.Valid() && i < |keys|
    requires results == Gathered(limit, Outcomes(keys, upstream, fetchedAt), i, cached) && |results| < limit
    requires existing == DatesOf(results)
    requires table.rows == StoredRows(rows, limit, Outcomes(keys, upstream, fetchedAt), Saves(keys, saveOk), i, cached)
    modifies table
    ensures table.Valid()
    ensures results' == Gathered(limit, Outcomes(keys, upstream, fetchedAt), i + 1, cached)
    ensures existing' == DatesOf(results')
    ensures table.rows == StoredRows(rows, limit, Outcomes(keys, upstream, fetchedAt), Saves(keys, saveOk), i + 1, cached)
  {
    results', existing' := results, existing;
    var key := keys[i];
    var reply := ReadReply(upstream(key));
    if reply.Ok? {
      var isoDate := ParseThaiDate(reply.value.date);
      if isoDate !in existing {
        var record := FetchedRecord(reply.value, fetchedAt);
        if saveOk(key) {
          table.Upsert(record);
        }
        DatesOfAppend(results, record);
        results' := results + [record];
        existing' := existing + {isoDate};
      }
    }
  }

  /**
   * The loop over the generated keys: fetch each while fewer than `limit`
   * rows are held. The first `fetched` keys are fetched, in order; `upstream(key)`
   * stands for the reply to `GET /lotto/<key>`.
   */
  method GatherDraws(
    table: Table, fetchedAt: int, limit: nat, keys: seq<string>, cached: seq<Row>,
    upstream: string -> Reply, saveOk: string -> bool)
    returns (results: seq<Row>, fetched: nat)
    requires table.Valid()
    modifies table
    ensures table.Valid()
    ensures fetched <= |keys|
    ensures results == Gathered(limit, Outcomes(keys, upstream, fetchedAt), fetched, cached)
    ensures table.rows == StoredRows(old(table.rows), limit, Outcomes(keys, upstream, fetchedAt), Saves(keys, saveOk), fetched, cached)
    ensures forall j :: 0 <= j < fetched ==> |Gathered(limit, Outcomes(keys, upstream, fetchedAt), j, cached)| < limit
    ensures fetched < |keys| ==> |results| >= limit
  {
    ghost var before := table.rows;
    ghost var outcomes, saves := Outcomes(keys, upstream, fetchedAt), Saves(keys, saveOk);
    results := cached;
    var existing := DatesOf(cached);
    var i := 0;
    while i < |keys|
      invariant 0 <= i <= |keys|
      invariant i > 0 ==> |Gathered(limit, outcomes, i - 1, cached)| < limit
      invariant results == Gathered(limit, outcomes, i, cached)
      invariant existing == DatesOf(results)
      invariant table.Valid()
      invariant table.rows == StoredRows(before, limit, outcomes, saves, i, cached)
    {
      if |results| >= limit {
        break;
      }
      results, existing := FetchStep(table, fetchedAt, limit, keys, i, cached, upstream, saveOk, before, results, existing);
      i := i + 1;
    }
    EveryFetchBelowLimit(limit, outcomes, i, cached);
    fetched := i;
  }

  /**
   * What an answer assembled from fetches satisfies, for the table `before`
   * and `after` the request, the generated `keys`, how many of them were fetched and
   * the rows returned.
   */
  ghost predicate AssembledAnswer(
    before: map<string, Row>, after: map<string, Row>, limit: nat, keys: seq<string>,
    upstream: string -> Reply, saveOk: string -> bool, fetchedAt: int, data: seq<Row>, fetched: nat)
  {
    && fetched <= |keys|
    // the loop stops early only once `limit` rows are held
    && (fetched < |keys| ==> |data| == limit)
    && MergedAnswer(before, after, Outcomes(keys, upstream, fetchedAt), Saves(keys, saveOk), fetched, data)
  }

  /**
   * The fetch-previous-draws handler for a numeric `limit`: the cached
   * previous draws when there are at least `limit` of them, untouched;
   * otherwise those rows and the draws fetched for the generated keys,
   * newest first.
   */
  method HandlePreviousDraws(
    table: Table, now: Moment, limit: nat, upstream: string -> Reply, saveOk: string -> bool)
    returns (resp: PreviousResponse, fetched: nat, ghost keys: seq<string>)
    requires table.Valid() && ValidMoment(now)
    modifies table
    ensures table.Valid()
    ensures |resp.data| <= limit && NewestFirst(resp.data)
    ensures resp.cached <==> |NonLatestKeys(old(table.rows))| >= limit
    ensures resp.cached ==> && fetched == 0 && table.rows == old(table.rows)
                            && forall i :: 0 <= i < |resp.data| ==>
                                 resp.data[i].drawDate in NonLatestKeys(table.rows)
                                 && table.rows[resp.data[i].drawDate] == resp.data[i]
    ensures resp.cached ==> |resp.data| == limit
    // the cached answer is the `limit` newest previous draws: every one left out is older
    ensures resp.cached ==> forall k :: k in NonLatestKeys(table.rows) && !HasDate(resp.data, k) ==>
                              forall i :: 0 <= i < |resp.data| ==> StrBefore(k, resp.data[i].drawDate)
    ensures keys == RecentKeys(now.date, limit + 1)
    ensures !resp.cached ==> AssembledAnswer(old(table.rows), table.rows, limit, keys,
                                             upstream, saveOk, EpochMillis(now), resp.data, fetched)
  {
    var cached := table.SelectPrevious(limit);
    if |cached| >= limit {
      return PreviousResponse(cached, true), 0, RecentKeys(now.date, limit + 1);
    }
    var drawDates := RecentDrawDates(now, limit + 1);
    keys := drawDates;
    var data;
    data, fetched := FetchMissingDraws(table, EpochMillis(now), limit, drawDates, cached, upstream, saveOk);
    resp := PreviousResponse(data, false);
  }

  /**
   * The branch taken when the cache holds fewer than `limit` previous
   * draws, all of which are in `cached`: fetch the `keys`, sort newest
   * first, keep `limit`.
   */
  method FetchMissingDraws(
    table: Table, fetchedAt: int, limit: nat, keys: seq<string>, cached: seq<Row>,
    upstream: string -> Reply, saveOk: string -> bool)
    returns (data: seq<Row>, fetched: nat)
    requires table.Valid() && |cached| < limit && NewestFirst(cached)
    requires forall i :: 0 <= i < |cached| ==>
               cached[i].drawDate in NonLatestKeys(table.rows) && table.rows[cached[i].drawDate] == cached[i]
    requires forall k :: k in NonLatestKeys(table.rows) ==> HasDate(cached, k)
    modifies table
    ensures table.Valid()
    ensures |data| <= limit && NewestFirst(data)
    ensures AssembledAnswer(old(table.rows), table.rows, limit, keys, upstream, saveOk, fetchedAt, data, fetched)
  {
    ghost var before := table.rows;
    NewestFirstDistinct(cached);
    var results;
    results, fetched := GatherDraws(table, fetchedAt, limit, keys, cached, upstream, saveOk);
    ghost var outcomes, saves := Outcomes(keys, upstream, fetchedAt), Saves(keys, saveOk);
    GatheredDistinct(limit, outcomes, fetched, cached);
    var sorted := SortNewestFirst(results);
    OutcomesNeverLatest(keys, upstream, fetchedAt);
    MergedAnswerHolds(before, limit, outcomes, saves, fetched, cached, sorted);
    var end := if |sorted| < limit then |sorted| else limit;
    data := sorted[..end];
    assert data == sorted;
    assert |sorted| == |results| by { assert |multiset(sorted)| == |multiset(results)|; }
  }

  /** Every answered row is a cached previous draw or a fetched record. */
  lemma AnswerRowOrigin(
    before: map<string, Row>, after: map<string, Row>, outcomes: seq<Option<Row>>, saves: seq<bool>, n: nat,
    data: seq<Row>, i: nat)
    requires n <= |outcomes| && |saves| == |outcomes| && MergedAnswer(before, after, outcomes, saves, n, data)
    requires i < |data|
    ensures data[i].drawDate in NonLatestKeys(before) || exists j :: 0 <= j < n && outcomes[j] == Some(data[i])
  {
  }

  /**
   * The generator's first key can name the current draw, the one the table
   * flags latest. When no previous draws are cached, that draw's reply is
   * usable and its save succeeds, the request answers it as a previous draw
   * and the upsert with `is_latest: false` leaves the table with no latest
   * row.
   */
  lemma CurrentDrawRefetchedUnflagged(
    today: Date, before: map<string, Row>, after: map<string, Row>, limit: nat,
    upstream: string -> Reply, saveOk: string -> bool, fetchedAt: int, data: seq<Row>, fetched: nat)
    requires ValidDate(today) && limit >= 1 && NonLatestKeys(before) == {}
    requires AssembledAnswer(before, after, limit, RecentKeys(today, limit + 1), upstream, saveOk, fetchedAt, data, fetched)
    requires var o := Outcome(upstream(RecentKey(today, 0)), fetchedAt);
      o.Some? && LatestKeys(before) == {o.value.drawDate} && saveOk(RecentKey(today, 0))
    ensures var o := Outcome(upstream(RecentKey(today, 0)), fetchedAt);
      && HasDate(data, o.value.drawDate)
      && o.value.drawDate in after && after[o.value.drawDate] == o.value
      && LatestKeys(after) == {}
  {
    var keys := RecentKeys(today, limit + 1);
    var outcomes, saves := Outcomes(keys, upstream, fetchedAt), Saves(keys, saveOk);
    assert keys[0] == RecentKey(today, 0);
    var o := outcomes[0];
    if fetched == 0 {
      // the answer would then hold `limit` rows, none cached and none fetched
      AnswerRowOrigin(before, after, outcomes, saves, fetched, data, 0);
      assert false;
    }
    OutcomesNeverLatest(keys, upstream, fetchedAt);
    assert o.value.drawDate in after && after[o.value.drawDate] == o.value;
    assert o.value.drawDate !in LatestKeys(after);
  }
}
