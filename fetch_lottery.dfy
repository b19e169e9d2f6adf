/**
 * The fetch-lottery edge function: serve the latest draw from the cache
 * while it is fresh, otherwise fetch it upstream, store it and mark it the
 * only latest row; on any upstream failure fall back to the cached latest
 * row, and fail with status 500 only when there is none.
 */
module FetchLottery {
  import opened Wrappers
  import opened Calendar
  import opened ThaiDate
  import opened Records
  import opened Normaliser
  import opened LotteryTable

  /** Thirty minutes, the cache lifetime inside the draw window. */
  const DrawWindowTtlMillis := 1_800_000
  /** Six hours, the cache lifetime at any other time. */
  const DefaultTtlMillis := 21_600_000

  datatype LatestResponse =
    | Served(data: Row, cached: bool)         // success, `cached` as the source reports it
    | Fallback(data: Row, error: Failure)     // success with `cached` and `fallback` set
    | Failed(error: Failure)                  // status 500

  function HttpStatus(r: LatestResponse): int {
    if r.Failed? then 500 else 200
  }

  /** `!drawDate` is false: a non-empty `date` parameter was given. */
  predicate DateGiven(date: Option<string>) {
    date.Some? && date.value != ""
  }

  /** The path fetched under the upstream API base. */
  function UpstreamPath(date: Option<string>): string {
    if DateGiven(date) then "/" + date.value else "/latest"
  }

  /** Draw days between 14:00 and 17:59 form the draw window. */
  predicate InDrawWindow(now: Moment) {
    IsDrawDay(now.date) && 14 <= now.hour <= 17
  }

  /** `cacheHours` in milliseconds. */
  function CacheTtlMillis(now: Moment): int {
    if InDrawWindow(now) then DrawWindowTtlMillis else DefaultTtlMillis
  }

  /** `hoursSinceFetch < cacheHours`. */
  predicate IsFresh(now: Moment, fetchedAt: int)
    requires ValidMoment(now)
  {
    EpochMillis(now) - fetchedAt < CacheTtlMillis(now)
  }

  /** The cached row the handler returns without calling upstream, if any. */
  ghost function CacheHit(rows: map<string, Row>, now: Moment, refresh: bool, date: Option<string>): Option<Row>
    requires ValidMoment(now)
  {
    if refresh || DateGiven(date) then None
    else match SingleLatest(rows)
      case Some(c) => if IsFresh(now, c.fetchedAt) then Some(c) else None
      case None => None
  }

  /** The record stored for a fetched draw. */
  function LatestRecord(x: Extracted, date: Option<string>, fetchedAt: int): Row {
    BuildRecord(ParseThaiDate(x.date), x.date, x.prizes, x.running, !DateGiven(date), fetchedAt)
  }

  /** The table after a successful fetch: clear the latest flag unless a date was given, then upsert if the save succeeds. */
  function TableAfterFetch(rows: map<string, Row>, record: Row, dateGiven: bool, saveOk: bool): map<string, Row> {
    var cleared := if dateGiven then rows else Cleared(rows);
    if saveOk then Upserted(cleared, record) else cleared
  }

  /**
   * One request. `reply` is what the upstream call would yield and `saveOk`
   * whether the upsert succeeds; `calls` lists the upstream paths fetched.
   */
  method HandleFetchLottery(table: Table, now: Moment, refresh: bool, date: Option<string>, reply: Reply, saveOk: bool)
    returns (resp: LatestResponse, calls: seq<string>)
    requires table.Valid() && ValidMoment(now)
    modifies table
    ensures table.Valid()
    ensures var hit := CacheHit(old(table.rows), now, refresh, date);
      hit.Some? ==> resp == Served(hit.value, true) && calls == [] && table.rows == old(table.rows)
    ensures CacheHit(old(table.rows), now, refresh, date).None? ==> calls == [UpstreamPath(date)]
    ensures CacheHit(old(table.rows), now, refresh, date).None? && ReadReply(reply).Err? ==>
      && table.rows == old(table.rows)
      && resp == match SingleLatest(old(table.rows))
                 case Some(c) => Fallback(c, ReadReply(reply).error)
                 case None => Failed(ReadReply(reply).error)
    ensures CacheHit(old(table.rows), now, refresh, date).None? && ReadReply(reply).Ok? ==>
      var record := LatestRecord(ReadReply(reply).value, date, EpochMillis(now));
      && resp == Served(record, false)
      && table.rows == TableAfterFetch(old(table.rows), record, DateGiven(date), saveOk)
  {
    if !refresh && !DateGiven(date) {
      var cached := table.FindLatest();
      if cached.Some? && EpochMillis(now) - cached.value.fetchedAt < CacheTtlMillis(now) {
        return Served(cached.value, true), [];
      }
    }
    calls := [UpstreamPath(date)];
    match ReadReply(reply)
    case Err(failure) =>
      var cached := table.FindLatest();
      if cached.Some? {
        resp := Fallback(cached.value, failure);
      } else {
        resp := Failed(failure);
      }
    case Ok(x) =>
      var record := LatestRecord(x, date, EpochMillis(now));
      if !DateGiven(date) {
        table.ClearLatest();
      }
      if saveOk {
        table.Upsert(record);
      }
      resp := Served(record, false);
  }

  // ---------------------------------------------------------------------

  /** A row served from the cache is younger than six hours, and younger than thirty minutes inside the draw window. */
  lemma CachedRowAge(rows: map<string, Row>, now: Moment, refresh: bool, date: Option<string>)
    requires ValidMoment(now)
    ensures var hit := CacheHit(rows, now, refresh, date);
      hit.Some? ==>
        && !refresh && !DateGiven(date) && hit.value.isLatest
        && EpochMillis(now) - hit.value.fetchedAt < DefaultTtlMillis
        && (InDrawWindow(now) ==> EpochMillis(now) - hit.value.fetchedAt < DrawWindowTtlMillis)
  {
  }

  /**
   * After a successful, stored fetch of the latest draw, a second request
   * within the cache lifetime is served that same record from the cache.
   */
  lemma SecondFetchHitsCache(rows: map<string, Row>, x: Extracted, first: Moment, second: Moment)
    requires ValidMoment(first) && ValidMoment(second)
    requires EpochMillis(second) - EpochMillis(first) < CacheTtlMillis(second)
    ensures var record := LatestRecord(x, None, EpochMillis(first));
      CacheHit(TableAfterFetch(rows, record, false, true), second, false, None) == Some(record)
  {
    var record := LatestRecord(x, None, EpochMillis(first));
    ClearThenUpsertSingleLatest(rows, record);
  }

  /** A fetch of the latest draw whose save fails leaves no latest row, so the next request misses the cache. */
  lemma FailedSaveLeavesNoLatest(rows: map<string, Row>, record: Row, now: Moment, refresh: bool, date: Option<string>)
    requires ValidMoment(now)
    ensures LatestKeys(TableAfterFetch(rows, record, false, false)) == {}
    ensures CacheHit(TableAfterFetch(rows, record, false, false), now, refresh, date).None?
  {
    ClearedHasNoLatest(rows);
  }

  /** Every write the handler makes keeps at most one row flagged latest. */
  lemma FetchKeepsOneLatest(rows: map<string, Row>, x: Extracted, date: Option<string>, fetchedAt: int, saveOk: bool)
    requires AtMostOneLatest(rows)
    ensures AtMostOneLatest(TableAfterFetch(rows, LatestRecord(x, date, fetchedAt), DateGiven(date), saveOk))
  {
    var record := LatestRecord(x, date, fetchedAt);
    if DateGiven(date) {
      if saveOk {
        UpsertNonLatestKeepsAtMostOne(rows, record);
      }
    } else if saveOk {
      ClearThenUpsertSingleLatest(rows, record);
    }
  }
}
