/**
 * The fetch-lottery-by-date edge function: a request names an ISO date;
 * the cached row for it is returned when there is one, otherwise the draw
 * is fetched under its Buddhist-Era key, stored (never as the latest row)
 * and returned. Upstream failures answer "no results", not an error status.
 */
module FetchLotteryByDate {
  import opened Wrappers
  import opened Text
  import opened Calendar
  import opened ThaiDate
  import opened Records
  import opened Normaliser
  import opened LotteryTable

  datatype ByDateResponse =
    | MissingDate             // status 400, "Date is required"
    | FromCache(data: Row)    // success, the stored row
    | Fetched(data: Row)      // success, the record built from the upstream payload
    | NoResults               // success false, "No results found for this date"
    | Crashed                 // status 500: the fetch or `response.json()` threw

  function HttpStatus(r: ByDateResponse): int {
    if r.MissingDate? then 400 else if r.Crashed? then 500 else 200
  }

  /**
   * `${day}${month}${year + 543}` read from `new Date(date)`: a text that is
   * not a calendar date gives an invalid `Date`, whose fields all print "NaN".
   */
  function RequestKey(date: string): string {
    match ParseIsoDate(date)
    case Some(d) => BeKey(d)
    case None => "NaNNaNNaN"
  }

  /** `data.status === 'error' || !data.response?.date` is false. */
  predicate HasResult(reply: Reply)
    requires reply.Body?
  {
    && reply.status != "error"
    && reply.response.Some?
    && reply.response.value.date.Some?
    && reply.response.value.date.value != ""
  }

  /** The stored record: the parsed Thai date, or the requested date when it does not parse; missing lists are empty. */
  function ByDateRecord(date: string, p: Payload, fetchedAt: int): (r: Row)
    requires p.date.Some?
    ensures !r.isLatest && r.drawDateThai == p.date.value && r.fetchedAt == fetchedAt
  {
    var parsed := ParseThaiDateOrEmpty(p.date.value);
    BuildRecord(if parsed != "" then parsed else date, p.date.value,
                p.prizes.GetOr([]), p.runningNumbers.GetOr([]), false, fetchedAt)
  }

  /**
   * One request for `date`. `reply` is what the upstream call would yield,
   * `saveOk` whether the upsert succeeds; `fetchedKey` is the draw key
   * fetched, if any.
   */
  method HandleFetchByDate(table: Table, now: Moment, date: Option<string>, reply: Reply, saveOk: bool)
    returns (resp: ByDateResponse, fetchedKey: Option<string>)
    requires table.Valid() && ValidMoment(now)
    modifies table
    ensures table.Valid()
    ensures date.None? || date.value == "" ==>
      resp == MissingDate && fetchedKey == None && table.rows == old(table.rows)
    ensures date.Some? && date.value != "" && date.value in old(table.rows) ==>
      resp == FromCache(old(table.rows)[date.value]) && fetchedKey == None && table.rows == old(table.rows)
    ensures date.Some? && date.value != "" && date.value !in old(table.rows) ==>
      && fetchedKey == Some(RequestKey(date.value))
      && (reply.Rejected? ==> resp == Crashed && table.rows == old(table.rows))
      && (reply.HttpError? || (reply.Body? && !HasResult(reply)) ==> resp == NoResults && table.rows == old(table.rows))
      && (reply.Body? && HasResult(reply) ==>
            var record := ByDateRecord(date.value, reply.response.value, EpochMillis(now));
            && resp == Fetched(record)
            && table.rows == if saveOk then Upserted(old(table.rows), record) else old(table.rows))
  {
    if date.None? || date.value == "" {
      return MissingDate, None;
    }
    var cached := table.FindByDate(date.value);
    if cached.Some? {
      return FromCache(cached.value), None;
    }
    var key := RequestKey(date.value);
    fetchedKey := Some(key);
    match reply
    case Rejected =>
      resp := Crashed;
    case HttpError(_) =>
      resp := NoResults;
    case Body(status, response) =>
      if status == "error" || response.None? || response.value.date.None? || response.value.date.value == "" {
        resp := NoResults;
      } else {
        var record := ByDateRecord(date.value, response.value, EpochMillis(now));
        if saveOk {
          table.Upsert(record);
        }
        resp := Fetched(record);
      }
  }

  // ---------------------------------------------------------------------

  /** The key of a four-digit-year ISO date reads back, on the upstream side, as that date. */
  lemma RequestKeyReadsBack(d: Date)
    requires ValidDate(d) && 1000 <= d.year <= 9999
    ensures ParseBeKey(RequestKey(IsoDateText(d))) == Some(d)
  {
    IsoDateRoundTrip(d);
    BeKeyRoundTrip(d);
  }

  /** A four-digit-year date has an eight-character key. */
  lemma RequestKeyLength(d: Date)
    requires ValidDate(d) && 1000 <= d.year <= 9456
    ensures |RequestKey(IsoDateText(d))| == 8
  {
    IsoDateRoundTrip(d);
    BeKeyLength(d);
  }

  /**
   * The stored date is the parsed Thai date when the Thai text has three
   * tokens, and the requested date otherwise.
   */
  lemma RecordDate(date: string, p: Payload, fetchedAt: int)
    requires p.date.Some?
    ensures ByDateRecord(date, p, fetchedAt).drawDate ==
      if |Split(p.date.value, ' ')| == 3 then ParseThaiDate(p.date.value) else date
  {
    ParseThaiDateOrEmptyIff(p.date.value);
    ParseThaiDateCopiesAgree(p.date.value);
  }

  /** Missing prize lists are stored empty, and then every extracted number is empty. */
  lemma MissingListsStoredEmpty(date: string, p: Payload, fetchedAt: int)
    requires p.date.Some? && p.prizes.None? && p.runningNumbers.None?
    ensures var r := ByDateRecord(date, p, fetchedAt);
      r.prizes == [] && r.runningNumbers == [] && r.firstPrize == "" && r.front3 == [] && r.last3 == [] && r.last2 == ""
  {
  }

  /** Storing a by-date record never adds a latest row, and keeps at most one. */
  lemma ByDateKeepsOneLatest(rows: map<string, Row>, date: string, p: Payload, fetchedAt: int)
    requires p.date.Some? && AtMostOneLatest(rows)
    ensures var after := Upserted(rows, ByDateRecord(date, p, fetchedAt));
      AtMostOneLatest(after) && LatestKeys(after) <= LatestKeys(rows)
  {
    UpsertNonLatestKeepsAtMostOne(rows, ByDateRecord(date, p, fetchedAt));
  }

  /** Once a fetched record is stored under the requested date, the next request for it is answered from the cache. */
  lemma SecondRequestHitsCache(rows: map<string, Row>, date: string, p: Payload, fetchedAt: int)
    requires p.date.Some? && ByDateRecord(date, p, fetchedAt).drawDate == date
    ensures var after := Upserted(rows, ByDateRecord(date, p, fetchedAt));
      date in after && after[date] == ByDateRecord(date, p, fetchedAt)
  {
  }
}
