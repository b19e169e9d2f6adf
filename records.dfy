/**
 * Record shapes: the upstream lottery payload, a row of the
 * `lottery_results` table, and the client-side `LotteryResult`,
 * `PreviousDraw` and `Prize` of src/types/lottery.ts.
 */
module Records {
  import opened Wrappers

  /** One element of the upstream `prizes` or `runningNumbers` list. */
  datatype PrizeEntry = PrizeEntry(id: string, name: string, reward: string, amount: int, number: seq<string>)

  /** The upstream `response` object; each field a handler dereferences may be missing. */
  datatype Payload = Payload(
    date: Option<string>,
    prizes: Option<seq<PrizeEntry>>,
    runningNumbers: Option<seq<PrizeEntry>>)

  /** What one upstream `fetch` yields. */
  datatype Reply =
    | Rejected                                      // fetch or response.json() threw
    | HttpError(httpStatus: int)                    // response.ok is false
    | Body(status: string, response: Option<Payload>)

  /** Why an upstream call gave no usable draw; fetch-lottery reports it as the error text. */
  datatype Failure =
    | RequestFailed(httpStatus: int)   // "API request failed: <status>"
    | UnsuccessfulStatus               // "API returned unsuccessful status"
    | MalformedPayload                 // a TypeError reading a missing field
    | Unreachable                      // the fetch itself rejected

  /** A row of `lottery_results`, unique on `drawDate`; `fetchedAt` in epoch milliseconds. */
  datatype Row = Row(
    drawDate: string,
    drawDateThai: string,
    firstPrize: string,
    front3: seq<string>,
    last3: seq<string>,
    last2: string,
    prizes: seq<PrizeEntry>,
    runningNumbers: seq<PrizeEntry>,
    isLatest: bool,
    fetchedAt: int)

  datatype Prize = Prize(id: Option<string>, name: string, numbers: seq<string>, amount: string)

  datatype DrawStatus = Waiting | Updated

  datatype LotteryResult = LotteryResult(
    drawDate: string,
    drawTime: string,
    isLatest: bool,
    status: DrawStatus,
    firstPrize: string,
    front3: seq<string>,
    last3: seq<string>,
    last2: string,
    prizes: seq<Prize>,
    fetchedAt: Option<int>)

  datatype PreviousDraw = PreviousDraw(
    drawDate: string,
    firstPrize: string,
    front3: seq<string>,
    last3: seq<string>,
    last2: string,
    prizes: Option<seq<Prize>>)
}
