/**
 * The client hooks of src/hooks/useLotteryData.ts: the expected draw date
 * and the waiting/updated status, the transforms from a table row to the
 * display records, and the decision chains of the three query functions
 * (latest result, previous draws, search by date). What the cache query
 * returned and what the edge function answered are inputs; the locale
 * formatters are parameters the model does not interpret.
 */
module LotteryHooks {
  import opened Wrappers
  import opened Text
  import opened Calendar
  import opened Records
  import LotteryTable
  import FetchLottery
  import FetchPreviousDraws
  import FetchLotteryByDate

  /** `toLocaleDateString('en-US', …)` on a date text and `toLocaleString()` on a number. */
  datatype Formatters = Formatters(englishDate: string -> string, grouped: int -> string)

  /** What `supabase.functions.invoke` resolves to: an `error`, or the body's `success` flag and `data`. */
  datatype Invoke<T> = InvokeFailed | Answered(success: bool, data: Option<T>)

  /** Why a query function throws. */
  datatype QueryError =
    | InvokeError   // the `error` returned by `invoke`
    | Unsuccessful  // `data.success` is false
    | MissingData   // `data.data` is undefined, so transforming it throws

  /** Six hours, the client's own cache lifetime for the latest row. */
  const ClientTtlMillis := 21_600_000

  // ---------------------------------------------------------------------
  // expected draw date and status

  /**
   * `getExpectedDrawDate`: the 16th when today is on or after it, else the
   * 1st, else the previous month's 16th.
   */
  function ExpectedDrawDate(today: Date): Date {
    if today.day >= 16 then Date(today.year, today.month, 16)
    else if today.day >= 1 then Date(today.year, today.month, 1)
    else PrevMonth(Date(today.year, today.month, 16))
  }

  /** `resultDate.getTime() >= currentExpectedDraw.getTime()`: a draw date that does not parse compares as NaN, hence waiting. */
  function ResultStatus(drawDate: string, today: Date): DrawStatus {
    match ParseIsoDate(drawDate)
    case None => Waiting
    case Some(d) => if DateBefore(d, ExpectedDrawDate(today)) then Waiting else Updated
  }

  /** The expected draw date is a draw day of the current month, never after today; the previous-month branch is dead. */
  lemma ExpectedDrawDateShape(today: Date)
    requires ValidDate(today)
    ensures var e := ExpectedDrawDate(today);
      && ValidDate(e) && IsDrawDay(e)
      && e.year == today.year && e.month == today.month
      && e.day == (if today.day >= 16 then 16 else 1)
      && !DateBefore(today, e)
  {
  }

  /** No draw day on or before today comes after the expected draw date: it is the most recent draw day. */
  lemma ExpectedIsMostRecentDrawDay(today: Date, d: Date)
    requires ValidDate(today) && ValidDate(d) && IsDrawDay(d) && !DateBefore(today, d)
    ensures !DateBefore(ExpectedDrawDate(today), d)
  {
  }

  /**
   * A result is waiting exactly when its date does not parse or a draw day
   * later than it has already come (today or earlier).
   */
  lemma WaitingIffDrawMissed(drawDate: string, today: Date)
    requires ValidDate(today)
    ensures ResultStatus(drawDate, today) == Waiting <==>
      || ParseIsoDate(drawDate).None?
      || exists d :: ValidDate(d) && IsDrawDay(d) && DateBefore(ParseIsoDate(drawDate).value, d) && !DateBefore(today, d)
  {
    var e := ExpectedDrawDate(today);
    ExpectedDrawDateShape(today);
    match ParseIsoDate(drawDate)
    case None =>
    case Some(r) =>
      if ResultStatus(drawDate, today) == Waiting {
        assert ValidDate(e) && IsDrawDay(e) && DateBefore(r, e) && !DateBefore(today, e);
      } else {
        forall d | ValidDate(d) && IsDrawDay(d) && DateBefore(r, d)
          ensures DateBefore(today, d)
        {
          if !DateBefore(today, d) {
            ExpectedIsMostRecentDrawDay(today, d);
          }
        }
      }
  }

  // ---------------------------------------------------------------------
  // transforms

  /** `formatPrizeAmount`: `parseInt(reward).toLocaleString()`, with NaN printed as "NaN". */
  function PrizeAmountText(fmt: Formatters, reward: string): string {
    match JsParseInt(reward)
    case None => "NaN"
    case Some(n) => fmt.grouped(n)
  }

  function ToPrize(fmt: Formatters, p: PrizeEntry): Prize {
    Prize(Some(p.id), p.name, p.number, PrizeAmountText(fmt, p.reward))
  }

  /** `data.prizes.map(p => ({ id, name, numbers, amount }))`. */
  function ToPrizes(fmt: Formatters, entries: seq<PrizeEntry>): seq<Prize> {
    seq(|entries|, i requires 0 <= i < |entries| => ToPrize(fmt, entries[i]))
  }

  /** `transformToLotteryResult`, with `now`'s calendar day for the status. */
  function ToLotteryResult(fmt: Formatters, data: Row, today: Date): LotteryResult {
    LotteryResult(
      fmt.englishDate(data.drawDate), "15:00", data.isLatest, ResultStatus(data.drawDate, today),
      data.firstPrize, data.front3, data.last3, data.last2, ToPrizes(fmt, data.prizes), Some(data.fetchedAt))
  }

  /** `transformToPreviousDraw`. */
  function ToPreviousDraw(fmt: Formatters, data: Row): PreviousDraw {
    PreviousDraw(fmt.englishDate(data.drawDate), data.firstPrize, data.front3, data.last3, data.last2,
                 Some(ToPrizes(fmt, data.prizes)))
  }

  function ToPreviousDraws(fmt: Formatters, rows: seq<Row>): seq<PreviousDraw> {
    seq(|rows|, i requires 0 <= i < |rows| => ToPreviousDraw(fmt, rows[i]))
  }

  /** Same prizes in the same order: count, id, name and numbers are kept. */
  predicate PrizesKept(entries: seq<PrizeEntry>, prizes: seq<Prize>) {
    && |prizes| == |entries|
    && forall i :: 0 <= i < |entries| ==>
         prizes[i].id == Some(entries[i].id) && prizes[i].name == entries[i].name && prizes[i].numbers == entries[i].number
  }

  /** The latest-result form copies the row's numbers, flag and fetch time, and always says 15:00. */
  lemma LotteryResultCopiesRow(fmt: Formatters, data: Row, today: Date)
    ensures var r := ToLotteryResult(fmt, data, today);
      && r.drawTime == "15:00" && r.isLatest == data.isLatest && r.fetchedAt == Some(data.fetchedAt)
      && r.firstPrize == data.firstPrize && r.front3 == data.front3 && r.last3 == data.last3 && r.last2 == data.last2
      && PrizesKept(data.prizes, r.prizes)
  {
  }

  /** Both display forms of one row carry the same date text, numbers and prizes. */
  lemma DisplayFormsAgree(fmt: Formatters, data: Row, today: Date)
    ensures var l := ToLotteryResult(fmt, data, today);
      var p := ToPreviousDraw(fmt, data);
      && p.drawDate == l.drawDate && p.firstPrize == l.firstPrize
      && p.front3 == l.front3 && p.last3 == l.last3 && p.last2 == l.last2
      && p.prizes == Some(l.prizes) && PrizesKept(data.prizes, p.prizes.value)
  {
  }

  // ---------------------------------------------------------------------
  // the query functions

  /** `hoursSinceFetch < 6` for the cached latest row. */
  predicate FreshForClient(now: Moment, row: Row)
    requires ValidMoment(now)
  {
    EpochMillis(now) - row.fetchedAt < ClientTtlMillis
  }

  /**
   * The latest-result `queryFn`. `cached` is what the `is_latest`
   * `maybeSingle()` query returned (none on an error), `invoke` what
   * calling fetch-lottery gave.
   */
  function LatestQuery(fmt: Formatters, cached: Option<Row>, now: Moment, invoke: Invoke<Row>): Result<LotteryResult, QueryError>
    requires ValidMoment(now)
  {
    if cached.Some? && FreshForClient(now, cached.value) then Ok(ToLotteryResult(fmt, cached.value, now.date))
    else match invoke
      case InvokeFailed =>
        if cached.Some? then Ok(ToLotteryResult(fmt, cached.value, now.date)) else Err(InvokeError)
      case Answered(success, data) =>
        if !success then Err(Unsuccessful)
        else if data.None? then Err(MissingData)
        else Ok(ToLotteryResult(fmt, data.value, now.date))
  }

  /** A cached row younger than six hours is shown whatever the edge function would answer. */
  lemma FreshCacheSkipsInvoke(fmt: Formatters, cached: Option<Row>, now: Moment, invoke1: Invoke<Row>, invoke2: Invoke<Row>)
    requires ValidMoment(now) && cached.Some? && FreshForClient(now, cached.value)
    ensures LatestQuery(fmt, cached, now, invoke1) == LatestQuery(fmt, cached, now, invoke2)
                                             == Ok(ToLotteryResult(fmt, cached.value, now.date))
  {
  }

  /**
   * The latest query throws exactly when the cache is not fresh and either
   * the call failed with no cached row, or the body was unsuccessful or empty.
   */
  lemma LatestQueryThrowsIff(fmt: Formatters, cached: Option<Row>, now: Moment, invoke: Invoke<Row>)
    requires ValidMoment(now)
    ensures LatestQuery(fmt, cached, now, invoke).Err? <==>
      && !(cached.Some? && FreshForClient(now, cached.value))
      && ((invoke.InvokeFailed? && cached.None?) || (invoke.Answered? && (!invoke.success || invoke.data.None?)))
  {
  }

  /** How fetch-lottery's answer reaches the client: a non-2xx status is an invoke error, any success carries the row. */
  function LatestInvoke(resp: FetchLottery.LatestResponse): Invoke<Row> {
    match resp
    case Failed(_) => InvokeFailed
    case Served(data, _) => Answered(true, Some(data))
    case Fallback(data, _) => Answered(true, Some(data))
  }

  /** Over fetch-lottery, the latest query throws only when the edge function failed and the client has no cached row. */
  lemma LatestQueryOverEdge(fmt: Formatters, cached: Option<Row>, now: Moment, resp: FetchLottery.LatestResponse)
    requires ValidMoment(now)
    ensures LatestQuery(fmt, cached, now, LatestInvoke(resp)).Err? <==> resp.Failed? && cached.None?
    ensures FetchLottery.HttpStatus(resp) == 200 && !(cached.Some? && FreshForClient(now, cached.value)) ==>
      LatestQuery(fmt, cached, now, LatestInvoke(resp)) == Ok(ToLotteryResult(fmt, resp.data, now.date))
  {
  }

  /**
   * The previous-draws `queryFn`. `cached` is what the ordered, limited
   * non-latest query returned (none on an error), `invoke` what calling
   * fetch-previous-draws gave.
   */
  function PreviousQuery(fmt: Formatters, cached: Option<seq<Row>>, limit: nat, invoke: Invoke<seq<Row>>): Result<seq<PreviousDraw>, QueryError> {
    if cached.Some? && |cached.value| >= limit then Ok(ToPreviousDraws(fmt, cached.value))
    else match invoke
      case InvokeFailed =>
        if cached.Some? && |cached.value| > 0 then Ok(ToPreviousDraws(fmt, cached.value)) else Err(InvokeError)
      case Answered(success, data) =>
        if !success then Err(Unsuccessful)
        else if data.None? then Err(MissingData)
        else Ok(ToPreviousDraws(fmt, data.value))
  }

  /**
   * The cached rows are shown, in their order, whenever there are enough of
   * them, and also when the call fails and there is at least one; the query
   * throws exactly when neither holds and the call did not give draws.
   */
  lemma PreviousQueryUsesCache(fmt: Formatters, cached: Option<seq<Row>>, limit: nat, invoke: Invoke<seq<Row>>)
    ensures var r := PreviousQuery(fmt, cached, limit, invoke);
      && (cached.Some? && (|cached.value| >= limit || (invoke.InvokeFailed? && |cached.value| > 0)) ==>
            r.Ok? && |r.value| == |cached.value|
            && forall i :: 0 <= i < |cached.value| ==> r.value[i] == ToPreviousDraw(fmt, cached.value[i]))
      && (r.Err? <==>
            && !(cached.Some? && |cached.value| >= limit)
            && ((invoke.InvokeFailed? && !(cached.Some? && |cached.value| > 0))
                || (invoke.Answered? && (!invoke.success || invoke.data.None?))))
  {
  }

  /**
   * Over fetch-previous-draws, a client short of cached rows shows every
   * draw the edge function answered, in its order, whatever the client's
   * own `limit`.
   */
  lemma PreviousQueryOverEdge(fmt: Formatters, cached: Option<seq<Row>>, limit: nat, resp: FetchPreviousDraws.PreviousResponse)
    requires !(cached.Some? && |cached.value| >= limit)
    ensures var r := PreviousQuery(fmt, cached, limit, Answered(true, Some(resp.data)));
      && r.Ok? && |r.value| == |resp.data|
      && forall i :: 0 <= i < |r.value| ==> r.value[i] == ToPreviousDraw(fmt, resp.data[i])
  {
  }

  /**
   * `usePreviousDraws(limit)` over fetch-previous-draws, as written: the
   * client puts its `limit` in the request body, but the handler reads
   * `limit` only from the URL, which carries none, so the edge function
   * works with its default of 5. A client asking for fewer than 5 draws
   * can be shown 5.
   */
  method PreviousDrawsOverEdge(
    fmt: Formatters, table: LotteryTable.Table, now: Moment, cached: Option<seq<Row>>, limit: nat,
    upstream: string -> Reply, saveOk: string -> bool)
    returns (r: Result<seq<PreviousDraw>, QueryError>)
    requires table.Valid() && ValidMoment(now)
    modifies table
    ensures table.Valid()
    ensures cached.Some? && |cached.value| >= limit ==>
      r == Ok(ToPreviousDraws(fmt, cached.value)) && table.rows == old(table.rows)
    ensures !(cached.Some? && |cached.value| >= limit) ==> r.Ok? && |r.value| <= 5
    ensures !(cached.Some? && |cached.value| >= limit) && |LotteryTable.NonLatestKeys(old(table.rows))| >= 5 ==>
      r.Ok? && |r.value| == 5
  {
    if cached.Some? && |cached.value| >= limit {
      return Ok(ToPreviousDraws(fmt, cached.value));
    }
    // the URL has no `limit` parameter
    var edgeLimit: nat := FetchPreviousDraws.RequestedLimit(None).value;
    var resp, fetched, keys := FetchPreviousDraws.HandlePreviousDraws(table, now, edgeLimit, upstream, saveOk);
    PreviousQueryOverEdge(fmt, cached, limit, resp);
    r := PreviousQuery(fmt, cached, limit, Answered(true, Some(resp.data)));
  }

  /**
   * The same call with the client's `limit` reaching the handler: the
   * client is never shown more draws than it asked for, and is shown
   * exactly that many once the table stores enough previous draws.
   */
  method PreviousDrawsOverEdgeWithLimit(
    fmt: Formatters, table: LotteryTable.Table, now: Moment, cached: Option<seq<Row>>, limit: nat,
    upstream: string -> Reply, saveOk: string -> bool)
    returns (r: Result<seq<PreviousDraw>, QueryError>)
    requires table.Valid() && ValidMoment(now)
    requires cached.Some? ==> |cached.value| <= limit  // the cache query is `.limit(limit)`
    modifies table
    ensures table.Valid()
    ensures cached.Some? && |cached.value| >= limit ==>
      r == Ok(ToPreviousDraws(fmt, cached.value)) && table.rows == old(table.rows)
    ensures r.Ok? && |r.value| <= limit
    ensures !(cached.Some? && |cached.value| >= limit) && |LotteryTable.NonLatestKeys(old(table.rows))| >= limit ==>
      |r.value| == limit
  {
    if cached.Some? && |cached.value| >= limit {
      r := Ok(ToPreviousDraws(fmt, cached.value));
      return;
    }
    var resp, fetched, keys := FetchPreviousDraws.HandlePreviousDraws(table, now, limit, upstream, saveOk);
    PreviousQueryOverEdge(fmt, cached, limit, resp);
    r := PreviousQuery(fmt, cached, limit, Answered(true, Some(resp.data)));
  }

  /**
   * fetch-previous-draws' generator starts at the current draw, the one
   * `getExpectedDrawDate` names, on every day that is not itself a draw
   * day; only on the 1st and the 16th does it start one draw earlier.
   */
  lemma PreviousDrawsStartAtCurrentDraw(today: Date)
    requires ValidDate(today)
    ensures FetchPreviousDraws.RecentSlot(today, 0) == ExpectedDrawDate(today) <==> !IsDrawDay(today)
  {
  }

  /**
   * The search-by-date `mutationFn`. `cached` is what the `draw_date`
   * lookup returned, `invoke` what calling fetch-lottery-by-date gave; no
   * path throws, every failure is `null`.
   */
  function SearchByDate(fmt: Formatters, cached: Option<Row>, invoke: Invoke<Row>): Option<PreviousDraw> {
    if cached.Some? then Some(ToPreviousDraw(fmt, cached.value))
    else match invoke
      case InvokeFailed => None
      case Answered(success, data) =>
        if !success || data.None? then None else Some(ToPreviousDraw(fmt, data.value))
  }

  /** `format(date, 'yyyy-MM-dd')`, the draw date the search asks for. */
  function SearchDateText(date: Date): string
    requires ValidDate(date)
  {
    IsoDateText(date)
  }

  /** How fetch-lottery-by-date's answer reaches the client. */
  function ByDateInvoke(resp: FetchLotteryByDate.ByDateResponse): Invoke<Row> {
    match resp
    case MissingDate => InvokeFailed
    case Crashed => InvokeFailed
    case FromCache(data) => Answered(true, Some(data))
    case Fetched(data) => Answered(true, Some(data))
    case NoResults => Answered(false, None)
  }

  /** Over fetch-lottery-by-date, the search finds a draw exactly when it is cached or the edge function returns a row. */
  lemma SearchOverEdge(fmt: Formatters, cached: Option<Row>, resp: FetchLotteryByDate.ByDateResponse)
    ensures var r := SearchByDate(fmt, cached, ByDateInvoke(resp));
      && (r.Some? <==> cached.Some? || resp.FromCache? || resp.Fetched?)
      && (cached.None? && (resp.FromCache? || resp.Fetched?) ==> r == Some(ToPreviousDraw(fmt, resp.data)))
  {
  }

  /**
   * The searched date reaches the edge function as the `draw_date` text of
   * that day, and the upstream key built from it reads back as the same day.
   */
  lemma SearchDateReachesUpstream(date: Date)
    requires ValidDate(date) && 1000 <= date.year <= 9999
    ensures ParseIsoDate(SearchDateText(date)) == Some(date)
    ensures ParseBeKey(FetchLotteryByDate.RequestKey(SearchDateText(date))) == Some(date)
  {
    IsoDateRoundTrip(date);
    FetchLotteryByDate.RequestKeyReadsBack(date);
  }
}
