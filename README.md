# LotteryThailand, modelled in Dafny

LotteryThailand shows the results of the Thai Government Lottery, which
draws at 15:00 on the 1st and the 16th of each month. Three Supabase edge
functions fetch draws from an upstream lottery API and cache them in the
`lottery_results` table. That table is keyed by the ISO draw date, and at
most one of its rows is flagged `is_latest`.

- **fetch-lottery** serves the latest draw from the cache while it is
  fresh. Otherwise it refetches, clears the latest flag and upserts. When
  the upstream call fails it falls back to the cached latest row.
- **fetch-previous-draws** answers from the cached earlier draws when
  there are enough of them. Otherwise it generates Buddhist-Era draw keys,
  fetches them one by one until it holds `limit` rows, sorts newest first
  and keeps `limit`.
- **fetch-lottery-by-date** answers one ISO date from the cache, or fetches
  the draw under its `DDMMYYYY` Buddhist-Era key and stores it.

The React client has these parts:

- hooks that add a waiting/updated status and turn rows into display
  records;
- a ticket checker;
- a countdown to the next draw;
- a historical search, whose calendar offers only past draw days.

The model is one Dafny module per source file, plus shared modules:

- `Wrappers`: `Option` and `Result`.
- `Text`: digits, JavaScript `parseInt`, `toString`, `padStart` and `split`, and the string order.
- `Calendar`: dates, instants, the ISO text and the Buddhist-Era key.
- `ThaiDate`: the edge functions' `parseThaiDate`.
- `Normaliser`: extraction of the prize numbers by `find`.
- `Records`: the record shapes of `src/types/lottery.ts`.
- `LotteryTable`: the table, as a class over a map keyed by draw date.
- `DrawMerge`: the merge loop of fetch-previous-draws, stated as a fold over the outcomes of the fetches.

The parts that change state are classes with `modifies` clauses:

- the table;
- the number checker's component state;
- the countdown's component state;
- the historical search's component state.

The handlers are methods over the table. The current time, every upstream
reply, every database write outcome and every cache-query result are
inputs.

The code departs from its own comments in two places:

- fetch-previous-draws says its date generator skips the current draw. It
  does so only on the 1st and the 16th. On every other day its first key
  is the current draw, which fetch-lottery stores flagged latest. When too
  few previous draws are cached, the handler fetches that draw again,
  upserts it with `is_latest: false` over the latest row and answers it as
  a previous draw. The table then has no latest row, so the next
  fetch-lottery request misses its cache.
- `usePreviousDraws(limit)` sends `limit` in the request body, but
  fetch-previous-draws reads `limit` only from the URL. The edge function
  therefore always works with 5 (see "## Findings").

## Model

| member | source | states |
|---|---|---|
| ThaiDate.ParseThaiDateUnchangedIff | supabase/functions/fetch-lottery/index.ts:41-42 | `parseThaiDate` returns its input unchanged exactly when the text does not split on single spaces into three tokens |
| ThaiDate.MonthCodeIsMonthNumber | supabase/functions/fetch-lottery/index.ts:35-45 | every month code is a two-digit month number from 1 to 12, and a name that is not one of the twelve Thai month names reads as `01` (inherited object properties excepted, see "## Left out") |
| ThaiDate.IsoFromTokensShape | supabase/functions/fetch-lottery/index.ts:44-49 | the text built from three tokens has no space and has a `-` after the year, so it never equals a three-token input |
| ThaiDate.ParseThaiDateOrEmptyIff | supabase/functions/fetch-lottery-by-date/index.ts:24-34 | the by-date copy returns `''` exactly when the text is not three tokens |
| ThaiDate.ParseThaiDateCopiesAgree | supabase/functions/fetch-previous-draws/index.ts:18-27 | the copy in fetch-previous-draws and fetch-lottery agrees with the by-date copy on every text; only the failure value differs (the input itself vs `''`) |
| Calendar.IsoDateRoundTrip | src/hooks/useLotteryData.ts:230 | `format(date, 'yyyy-MM-dd')` of a four-digit-year date reads back as the same date |
| Calendar.BeKeyRoundTrip | supabase/functions/fetch-lottery-by-date/index.ts:70-74 | the `DDMMYYYY` Buddhist-Era key of a valid date reads back as that date, the year less 543 |
| Calendar.BeKeyLength | supabase/functions/fetch-lottery-by-date/index.ts:71-74 | keys are eight characters for Gregorian years 457 to 9456 |
| Normaliser.FindEntry | supabase/functions/fetch-lottery/index.ts:130-133 | `find` returns nothing exactly when no entry has the id, and otherwise the first entry with it |
| Normaliser.RecordTakesFirstEntries | supabase/functions/fetch-lottery/index.ts:130-150 | the first prize and last 2 are the first number of the first matching entry or `''`; front 3 and last 3 are its whole list or `[]`; the other fields are copied |
| Normaliser.ReadReply | supabase/functions/fetch-lottery/index.ts:117-127 | a reply gives a draw exactly when the response is ok, its status is `success` and the fields it reads are present |
| LotteryTable.Table.FindLatest | supabase/functions/fetch-lottery/index.ts:78-82 | `.eq('is_latest', true).single()` gives the latest row when exactly one row is flagged, else nothing |
| LotteryTable.Table.FindByDate | supabase/functions/fetch-lottery-by-date/index.ts:56-60 | the lookup finds a row exactly when the date is a key, and returns that row |
| LotteryTable.Table.SelectPrevious | supabase/functions/fetch-previous-draws/index.ts:94-99 | the rows not flagged latest, newest first; the result holds min(limit, count) of them, taken from the table; every unselected one is older than all selected; all are selected when they fit |
| LotteryTable.NewestKey | supabase/functions/fetch-previous-draws/index.ts:98 | the newest of a non-empty set of dates: it is in the set and every other date is older |
| LotteryTable.Table.ClearLatest | supabase/functions/fetch-lottery/index.ts:153-158 | every row loses the latest flag and nothing else changes |
| LotteryTable.Table.Upsert | supabase/functions/fetch-lottery/index.ts:161-165 | the row is inserted or replaces the row with its draw date, and rows stay keyed by date |
| LotteryTable.ClearThenUpsertSingleLatest | supabase/functions/fetch-lottery/index.ts:152-165 | clearing and then upserting a latest row leaves exactly that row flagged |
| LotteryTable.UpsertTouchesOneDate | supabase/functions/fetch-lottery/index.ts:161-165 | an upsert adds or replaces exactly one date and leaves every other row as it was |
| LotteryTable.UpsertNonLatestKeepsAtMostOne | supabase/functions/fetch-lottery-by-date/index.ts:117-124 | upserting a non-latest row keeps at most one latest row and never adds one |
| LotteryTable.ClearedHasNoLatest | supabase/functions/fetch-lottery/index.ts:153-158 | after the clear no row is flagged latest and every row is otherwise unchanged |
| FetchLottery.HandleFetchLottery | supabase/functions/fetch-lottery/index.ts:72-219 | a fresh cached latest row is served with no upstream call; otherwise one call to `/latest` or `/<date>`; a failure serves the cached latest row as a fallback, or status 500 without one; a success clears the flag (only when no date is given), upserts when the save succeeds and serves the record |
| FetchLottery.CachedRowAge | supabase/functions/fetch-lottery/index.ts:77-94 | a cache hit needs no `refresh` and no `date`, is the latest row, is under 6 h old, and is under 30 min old on a draw day between 14:00 and 17:59 |
| FetchLottery.SecondFetchHitsCache | supabase/functions/fetch-lottery/index.ts:77-165 | after a stored fetch of the latest draw, a request within the cache lifetime is served that same record from the cache |
| FetchLottery.FailedSaveLeavesNoLatest | supabase/functions/fetch-lottery/index.ts:152-170 | when the upsert fails after the clear, no row is flagged latest and the next request misses the cache |
| FetchLottery.FetchKeepsOneLatest | supabase/functions/fetch-lottery/index.ts:148-165 | every write of the handler keeps at most one row flagged latest |
| FetchPreviousDraws.StepToPreviousDraw | supabase/functions/fetch-previous-draws/index.ts:40-52 | the "previous draw date" step, with the rollover from January to December |
| FetchPreviousDraws.StepToPreviousSlot | supabase/functions/fetch-previous-draws/index.ts:65-74 | the "previous draw slot" step |
| FetchPreviousDraws.RecentDrawDates | supabase/functions/fetch-previous-draws/index.ts:30-78 | `getRecentDrawDates(count)` yields exactly the first `count` keys of the slot sequence, in order |
| FetchPreviousDraws.RecentSlotIsDrawDay | supabase/functions/fetch-previous-draws/index.ts:37-75 | every generated date is a valid draw day, and all share the first date's day of the month |
| FetchPreviousDraws.RecentSlotBeforeToday | supabase/functions/fetch-previous-draws/index.ts:54-62 | every generated date is before today, so the `drawDate < now` guard never drops one |
| FetchPreviousDraws.RecentSlotsDescending | supabase/functions/fetch-previous-draws/index.ts:37-75 | the generated dates are strictly decreasing |
| FetchPreviousDraws.FirstSlotIsLastPastDraw | supabase/functions/fetch-previous-draws/index.ts:39-52 | the first generated date is the most recent draw day before today |
| FetchPreviousDraws.AlternateDrawsSkipped | supabase/functions/fetch-previous-draws/index.ts:39-74 | between two consecutive generated dates lies a draw day that is never generated, because both steps move back |
| FetchPreviousDraws.RecentKeyReadsBack | supabase/functions/fetch-previous-draws/index.ts:58-61 | each generated key reads back as its date |
| FetchPreviousDraws.RecentKeyDay | supabase/functions/fetch-previous-draws/index.ts:60 | every key starts with the same day text, `16` or `01` |
| FetchPreviousDraws.RequestedLimit | supabase/functions/fetch-previous-draws/index.ts:91 | a missing or empty `limit` parameter reads as 5 |
| FetchPreviousDraws.Outcome | supabase/functions/fetch-previous-draws/index.ts:125-163 | a fetch yields a record exactly when the reply is usable; the record carries the parsed Thai date and the Thai text, is not latest and is stamped with the request time |
| FetchPreviousDraws.FetchStep | supabase/functions/fetch-previous-draws/index.ts:119-183 | one iteration extends the results and the table exactly as the fold over the outcomes does |
| FetchPreviousDraws.GatherDraws | supabase/functions/fetch-previous-draws/index.ts:112-184 | the loop fetches the keys in order while fewer than `limit` rows are held, and stops early only once `limit` rows are held |
| FetchPreviousDraws.HandlePreviousDraws | supabase/functions/fetch-previous-draws/index.ts:90-196 | with at least `limit` cached previous draws, exactly the `limit` newest are answered, as stored, with no fetch, and every previous draw left out is older than all answered; otherwise the answer holds every cached previous draw and every fetched record, and nothing else; it is newest first and at most `limit` long; the table gains only saved records and never a new latest flag, and the first saved fetch of a date no previous draw held becomes that date's row |
| FetchPreviousDraws.FetchMissingDraws | supabase/functions/fetch-previous-draws/index.ts:112-188 | the fetch, sort and slice branch produces the merged answer, newest first |
| DrawMerge.SortNewestFirst | supabase/functions/fetch-previous-draws/index.ts:186-187 | the sort is a permutation of the results, newest first |
| DrawMerge.GatheredDistinct | supabase/functions/fetch-previous-draws/index.ts:142-145 | the `existingDates` check keeps the results free of repeated dates |
| DrawMerge.GatheredBounded | supabase/functions/fetch-previous-draws/index.ts:120 | the results never exceed `limit` when the cache held at most `limit` |
| DrawMerge.StoredRowsNoNewLatest | supabase/functions/fetch-previous-draws/index.ts:161 | the records the loop stores never add a latest flag |
| DrawMerge.MergedAnswerHolds | supabase/functions/fetch-previous-draws/index.ts:112-188 | the sorted merge answers every cached and fetched date and nothing else; the table keeps every row; the first fetch of a new date, when saved, replaces that date's row |
| DrawMerge.FetchedRecordStored | supabase/functions/fetch-previous-draws/index.ts:140-170 | a record fetched below the limit under a date not yet held, and saved, stays that date's row to the end of the loop, because later fetches of the date are skipped |
| FetchPreviousDraws.CurrentDrawRefetchedUnflagged | supabase/functions/fetch-previous-draws/index.ts:112-170 | with no previous draws cached, a usable reply to the first key naming the latest row's date, and a successful save, the draw is answered as a previous draw, its row is replaced by the unflagged record, and no row is left flagged latest |
| FetchLotteryByDate.HandleFetchByDate | supabase/functions/fetch-lottery-by-date/index.ts:46-142 | a missing or empty date gives 400; a cached row is returned with no fetch; otherwise the key is fetched; a rejected fetch gives 500; a non-ok reply or one without a date gives "no results"; a reply with a date stores the record when the save succeeds and returns it |
| FetchLotteryByDate.ByDateRecord | supabase/functions/fetch-lottery-by-date/index.ts:97-119 | the stored record is never latest and keeps the Thai date text and the request time |
| FetchLotteryByDate.RecordDate | supabase/functions/fetch-lottery-by-date/index.ts:106-109 | the stored date is the parsed Thai date when the text has three tokens, and the requested date otherwise |
| FetchLotteryByDate.MissingListsStoredEmpty | supabase/functions/fetch-lottery-by-date/index.ts:98-114 | missing prize lists are stored empty, and every extracted number is then empty |
| FetchLotteryByDate.RequestKeyReadsBack | supabase/functions/fetch-lottery-by-date/index.ts:69-78 | the key fetched for an ISO date reads back, on the upstream side, as that date |
| FetchLotteryByDate.RequestKeyLength | supabase/functions/fetch-lottery-by-date/index.ts:69-74 | a four-digit-year date up to 9456 has an eight-character key |
| FetchLotteryByDate.ByDateKeepsOneLatest | supabase/functions/fetch-lottery-by-date/index.ts:117-124 | storing a by-date record never adds a latest row |
| FetchLotteryByDate.SecondRequestHitsCache | supabase/functions/fetch-lottery-by-date/index.ts:56-67 | once a record is stored under the requested date, the next request for that date is answered from the cache |
| LotteryHooks.ExpectedDrawDateShape | src/hooks/useLotteryData.ts:76-93 | the expected draw date is the 16th of this month from the 16th on, else the 1st; it is never after today, and the previous-month branch is dead |
| LotteryHooks.ExpectedIsMostRecentDrawDay | src/hooks/useLotteryData.ts:76-93 | no draw day on or before today comes after the expected draw date |
| LotteryHooks.WaitingIffDrawMissed | src/hooks/useLotteryData.ts:51-59 | a result is `waiting` exactly when its date does not parse, or a draw day after it has already come |
| LotteryHooks.LotteryResultCopiesRow | src/hooks/useLotteryData.ts:42-73 | the latest-result form copies the numbers, flag and fetch time, keeps every prize's id, name and numbers in order, and always says 15:00 |
| LotteryHooks.DisplayFormsAgree | src/hooks/useLotteryData.ts:95-111 | the previous-draw form of a row carries the same date text, numbers and prizes as its latest-result form |
| LotteryHooks.FreshCacheSkipsInvoke | src/hooks/useLotteryData.ts:150-160 | a cached latest row younger than 6 h is shown whatever the edge function would answer |
| LotteryHooks.LatestQueryThrowsIff | src/hooks/useLotteryData.ts:142-178 | the latest query throws exactly when the cache is not fresh and either the call failed with no cached row, or the body was unsuccessful or empty |
| LotteryHooks.LatestQueryOverEdge | src/hooks/useLotteryData.ts:163-178 | over fetch-lottery, the query throws only when the edge function failed and there is no cached row, and a 200 answer is shown |
| LotteryHooks.PreviousQueryUsesCache | src/hooks/useLotteryData.ts:186-225 | the cached rows are shown, in order, when there are enough of them, or when the call failed and there is at least one; it throws exactly when neither holds and the call gave no draws |
| LotteryHooks.PreviousQueryOverEdge | src/hooks/useLotteryData.ts:203-221 | over fetch-previous-draws, a client short of cached rows shows every draw the edge function answered, in order, whatever its own `limit` |
| LotteryHooks.PreviousDrawsOverEdge | src/hooks/useLotteryData.ts:186-225 | as written: enough cached rows are shown without a call; otherwise the edge function runs with its default limit of 5, so at most 5 draws are shown, and exactly 5 when the table stores five previous draws, whatever the client's `limit` |
| LotteryHooks.PreviousDrawsOverEdgeWithLimit | src/hooks/useLotteryData.ts:186-225 | with the client's `limit` reaching the handler: never more than `limit` draws are shown, and exactly `limit` when the table stores that many previous draws |
| LotteryHooks.PreviousDrawsStartAtCurrentDraw | supabase/functions/fetch-previous-draws/index.ts:37-52 | the generator's first date is the current draw that `getExpectedDrawDate` names exactly when today is not a draw day |
| LotteryHooks.SearchOverEdge | src/hooks/useLotteryData.ts:227-260 | the search finds a draw exactly when the row is cached or the edge function returns one, and then shows that row |
| LotteryHooks.SearchDateReachesUpstream | src/hooks/useLotteryData.ts:230 | the searched day reaches the edge function as its ISO text, and the upstream key built from it reads back as the same day |
| NumberChecker.MatchTicket | src/components/NumberChecker.tsx:30-60 | the matches pushed for a six-character ticket are exactly the full matches, then the front-3, last-3 and last-2 matches |
| NumberChecker.PushTierMatches | src/components/NumberChecker.tsx:41-45 | the `forEach` appends one full match for each tier that lists the ticket, in tier order |
| NumberChecker.TierMatchesSound | src/components/NumberChecker.tsx:41-45 | every tier match comes from a tier that lists the ticket |
| NumberChecker.TierMatchesComplete | src/components/NumberChecker.tsx:41-45 | every tier that lists the ticket contributes its match |
| NumberChecker.FullMatchIff | src/components/NumberChecker.tsx:35-45 | there is a full match exactly when the ticket is the first prize or some tier lists it |
| NumberChecker.PartMatchIff | src/components/NumberChecker.tsx:31-60 | the front-3, last-3 and last-2 matches are each present exactly when that part of the ticket is drawn |
| NumberChecker.MatchesOrder | src/components/NumberChecker.tsx:35-60 | full matches come first, then front 3, last 3 and last 2, in that order |
| NumberChecker.MatchesCount | src/components/NumberChecker.tsx:35-60 | at most one match per tier, plus four |
| NumberChecker.FirstPrizeListedTwice | src/components/NumberChecker.tsx:35-45 | a first-prize ticket that a tier also lists is matched twice, the first prize first |
| NumberChecker.DigitsOnlyKeepsDigits | src/components/NumberChecker.tsx:67 | removing non-digits leaves only digits, never lengthens the text, and keeps an all-digit text unchanged |
| NumberChecker.SanitisedShape | src/components/NumberChecker.tsx:66-67 | the sanitised input is all digits, at most six long, and a prefix of the digits of the input |
| NumberChecker.SanitiseIdempotent | src/components/NumberChecker.tsx:66-67 | sanitising twice is sanitising once |
| NumberChecker.Checker.constructor | src/components/NumberChecker.tsx:21-23 | the checker starts with an empty ticket, no matches and nothing checked |
| NumberChecker.Checker.CheckNumber | src/components/NumberChecker.tsx:25-64 | a six-digit ticket stores its matches and sets `hasChecked`; any other ticket changes nothing |
| NumberChecker.Checker.HandleInputChange | src/components/NumberChecker.tsx:66-70 | the ticket becomes the sanitised input and `hasChecked` is cleared, while the old matches stay |
| NumberChecker.Checker.HandleKeyDown | src/components/NumberChecker.tsx:72-76 | Enter with a six-character ticket checks it; any other key changes nothing |
| MockLotteryData.NextDrawDateShape | src/data/mockLotteryData.ts:59-86 | the next draw is 15:00 on the 16th before the 16th, else on the 1st of next month, with December rolling over to January |
| MockLotteryData.CandidateIsFinal | src/data/mockLotteryData.ts:78-83 | the first candidate is already after `now`, so the second adjustment never fires, and the branch for a day before the 1st is dead |
| MockLotteryData.NextDrawIsFirstDrawDayAfterToday | src/data/mockLotteryData.ts:59-86 | the next draw is on a later day than today, and no draw day lies between them |
| MockLotteryData.SameDayDrawSkipped | src/data/mockLotteryData.ts:66-73 | on a draw day before 15:00, that day's draw is still ahead, yet a later day is returned |
| MockLotteryData.PreviousDrawsFixtureShape | src/data/mockLotteryData.ts:21-57 | the fixture's previous draws are dated on draw days, strictly newest first, and each has two front-3 and two last-3 numbers |
| MockLotteryData.FixtureFirstPrizeMatchesTwice | src/data/mockLotteryData.ts:3-19 | the fixture's first-prize ticket is also in its "1st Prize" tier, so checking it gives two full matches |
| CountdownTimer.TimeLeftOf | src/components/CountdownTimer.tsx:29-32 | for a positive difference, hours are under 24, minutes and seconds under 60, and days non-negative |
| CountdownTimer.TimeLeftTotal | src/components/CountdownTimer.tsx:29-32 | days·86400 + hours·3600 + minutes·60 + seconds is the difference in whole seconds |
| CountdownTimer.TimeLeftBySeconds | src/components/CountdownTimer.tsx:29-32 | the four fields depend on the difference only through its whole seconds |
| CountdownTimer.TotalOfParts | src/components/CountdownTimer.tsx:29-32 | splitting a count of seconds and adding the parts back gives the count |
| CountdownTimer.PartsOfTotal | src/components/CountdownTimer.tsx:29-32 | every in-range time left is the split of its own total, so the split is a bijection |
| CountdownTimer.SameDisplayIff | src/components/CountdownTimer.tsx:29-32 | two differences show the same time exactly when they have the same whole seconds |
| CountdownTimer.Countdown.constructor | src/components/CountdownTimer.tsx:15-16 | the countdown starts at zero, aimed at `getNextDrawDate()` |
| CountdownTimer.Countdown.Tick | src/components/CountdownTimer.tsx:19-33 | once the draw is not in the future, the target becomes the next draw, which is after `now`, and the display is unchanged; otherwise the display shows the difference, which adds back to its whole seconds |
| HistoricalSearch.FormatThenParse | src/components/HistoricalSearch.tsx:44-51 | the Thai label splits into three tokens, and the edge functions' `parseThaiDate` reads it back as the zero-padded ISO date |
| HistoricalSearch.MonthNameCode | src/components/HistoricalSearch.tsx:48-49 | each month name of the component maps to its own two-digit month number in the edge functions' table |
| HistoricalSearch.DisabledIff | src/components/HistoricalSearch.tsx:57-67 | a date is disabled exactly when it is after today or is neither the 1st nor the 16th |
| HistoricalSearch.TodayDrawSelectable | src/components/HistoricalSearch.tsx:63-67 | today, when it is a draw day, can be picked at any time of day |
| HistoricalSearch.Search.Select | src/components/HistoricalSearch.tsx:100-103 | picking a date sets only the selected date |
| HistoricalSearch.Search.HandleSearch | src/components/HistoricalSearch.tsx:22-35 | without a selected date nothing changes; otherwise the result, or null on error, is stored and `hasSearched` is set; a shown result always follows a search |
| HistoricalSearch.Search.HandleClear | src/components/HistoricalSearch.tsx:37-41 | back to no date, no result and nothing searched |
| HistoricalSearch.SearchSelected | src/components/HistoricalSearch.tsx:22-35 | a search that settles normally shows what `useSearchLotteryByDate` resolves to |

## Findings

| source | as written | input that shows it | evidently intended | confidence | as-written member | corrected member |
|---|---|---|---|---|---|---|
| src/hooks/useLotteryData.ts:204-206 | the client sends `limit` in the request body, and fetch-previous-draws reads it only from the URL (supabase/functions/fetch-previous-draws/index.ts:91), so the edge function always uses 5 | `usePreviousDraws(3)` when the client's cache query fails and the table stores five previous draws: five draws are shown | the edge function answers at most the client's `limit` draws | not executed; high | LotteryHooks.PreviousDrawsOverEdge | LotteryHooks.PreviousDrawsOverEdgeWithLimit |

## Left out

- HTTP, CORS, environment variables and JSON encoding are not modelled. The `OPTIONS` preflight is left out. The response bodies are modelled as datatypes carrying their fields.
- Concurrency between requests is left out, as are the realtime subscription and react-query's caching, polling and retries. Each handler runs to completion over a table it owns.
- Time zones and locales are left out. Dates are local calendar tuples, and `getTime()` treats local time as UTC.
- `toLocaleDateString`, date-fns `format(date, "PPP")` and `toLocaleString` are uninterpreted parameters (`Formatters`).
- Prize labels in `NumberChecker` are the translation keys passed to `t`.
- The client's `hoursSinceFetch` and fetch-lottery's floating-point age become integer milliseconds compared with the TTL. The comparison is exact because epoch milliseconds are far below 2^53.
- `setInterval` is left out: `Countdown.Tick` is one call of `calculateTimeLeft`.
- The countdown's calls to `new Date()` and `getNextDrawDate()` in one tick read the same instant.
- Each request stamps its records with one timestamp. The source calls `new Date()` once per record.
- `getTime()` does not follow the calendar order in this model: `EpochMillis` is not proved increasing.
- CountdownTimer.Countdown.Tick: states the new target in terms of the calendar order (`MomentBefore`), not a positive `getTime()` difference.
- The edge functions' `console.log` and `console.error` calls are left out, and so is the count of upstream calls in the previous-draws loop. That loop's calls are the first `fetched` keys.
- fetch-lottery's clear-latest update is assumed to succeed. The source ignores its error.
- fetch-lottery's fallback query inside the outer `catch` is assumed not to throw.
- fetch-previous-draws' outer `catch` fallback is left out: the five cached draws or status 500 after an unexpected exception.
- fetch-previous-draws runs for a numeric `limit` only. `RequestedLimit` models the `parseInt` of the parameter, but a NaN or negative limit is not carried into the handler.
- DrawMerge.SortNewestFirst: the comparator `new Date(b).getTime() - new Date(a).getTime()` is modelled as the string order of the ISO dates. The two agree on valid `YYYY-MM-DD` texts. A date text that does not parse gives NaN and an engine-defined order, which is not modelled.
- JavaScript `Date` leniency is left out: month overflow in `new Date(text)` is not modelled. An ISO text that is not a valid calendar date is an invalid date, whose key prints `NaNNaNNaN`.
- The client's cache queries are inputs. A query error is modelled as the query returning no row.
- A by-date mutation that throws outside the modelled paths reaches `onError`. `HandleSearch` receives it as the outcome `None`.
- `transformToLotteryResult` keeps `fetched_at` as a timestamp text. Here it is the integer `fetchedAt`.
- The fixture `currentResult`'s prize tiers carry no `id`. The fixture's date texts are checked against the dates written with the English month names.
- Pure rendering components are left out: PrizeTable, QuickResults, PreviousDraws, StatusBadge, FirstPrize, Header, Footer, the page and the i18n setup.
- MonthCodeIsMonthNumber: `thaiMonths[name] || '01'` also reads properties every JavaScript object inherits (`constructor`, `toString`, `__proto__` and the like). A month token with such a name yields the text of a function or `[object Object]`, not a month number or `01`. The model treats every name outside the twelve Thai month names as missing. This applies to all three copies of `parseThaiDate`.
- IsoFromTokensShape: for the same inherited-property tokens, the built text contains the engine's text of a function, which has spaces. The model's month code never does.
- FetchLottery.HandleFetchLottery: when the save fails, the source answers `{ ...record, english_date }`, the record plus an `english_date` field from `formatEnglishDate`. `Served` carries the record only, because `formatEnglishDate` is locale formatting.
- Calendar.IsoDateText: date-fns `format(date, 'yyyy-MM-dd')` pads the year to four digits, and the model writes it unpadded. The two differ for years below 1000, which is why the lemmas about `SearchDateText` and `IsoDateText` cover years 1000 to 9999.
- LotteryTable.Table.SelectPrevious: fetch-previous-draws' cached query can fail. `cachedDraws` is then null, and the handler goes straight to the fetch loop, seeded with no rows. The model's query always succeeds.
