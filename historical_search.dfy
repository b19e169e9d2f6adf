/**
 * src/components/HistoricalSearch.tsx: the Thai date label, the calendar
 * filter that offers only past draw days, and the three state fields the
 * search and clear buttons update.
 */
module HistoricalSearch {
  import opened Wrappers
  import opened Text
  import opened Calendar
  import opened ThaiDate
  import opened Records
  import opened LotteryHooks

  /** The component's `thaiMonths` list, January first. */
  const ThaiMonthNames: seq<string> := [
    "มกราคม", "กุมภาพันธ์", "มีนาคม", "เมษายน", "พฤษภาคม", "มิถุนายน",
    "กรกฎาคม", "สิงหาคม", "กันยายน", "ตุลาคม", "พฤศจิกายน", "ธันวาคม"
  ]

  /** `formatDate` in Thai: `${day} ${thaiMonths[month]} ${year + 543}`, the day unpadded. */
  function FormatThaiDate(d: Date): string
    requires ValidDate(d)
  {
    NatToString(d.day) + " " + ThaiMonthNames[d.month - 1] + " " + IntToString(d.year + 543)
  }

  /** `isDrawDay`. */
  function IsDrawDayOf(d: Date): (r: bool)
    ensures r <==> IsDrawDay(d)
  {
    d.day == 1 || d.day == 16
  }

  /**
   * `disabledDays`: the picker's date (local midnight of its day) is after
   * today's midnight, or it is not a draw day.
   */
  function IsDisabled(date: Date, now: Moment): bool {
    MomentBefore(Midnight(now.date), Midnight(date)) || !IsDrawDayOf(date)
  }

  // ---------------------------------------------------------------------

  /** A date is disabled exactly when it is a later day than today or is neither the 1st nor the 16th. */
  lemma DisabledIff(date: Date, now: Moment)
    ensures IsDisabled(date, now) <==> DateBefore(now.date, date) || (date.day != 1 && date.day != 16)
  {
  }

  /** Today's draw, if today is a draw day, can be picked at any time of day. */
  lemma TodayDrawSelectable(now: Moment)
    requires IsDrawDay(now.date)
    ensures !IsDisabled(now.date, now)
  {
  }

  /** Each month name maps back to its own two-digit month number in the edge functions' table. */
  lemma MonthNameCode(month: int)
    requires 1 <= month <= 12
    ensures ThaiMonthNames[month - 1] in ThaiMonthCodes
    ensures MonthCode(ThaiMonthNames[month - 1]) == PadStart2(NatToString(month))
  {
    var code := MonthCode(ThaiMonthNames[month - 1]);
    if month < 10 {
      assert code == ['0', DigitChar(month)];
    } else {
      assert NatToString(month) == NatToString(month / 10) + [DigitChar(month % 10)];
      assert code == ['1', DigitChar(month % 10)];
    }
  }

  /** No month name contains a space. */
  lemma NoSpaceInMonthName(month: int)
    requires 1 <= month <= 12
    ensures ' ' !in ThaiMonthNames[month - 1]
  {
  }

  /**
   * The label round-trips through the edge functions' `parseThaiDate`: it
   * splits into three tokens and reads back as the zero-padded ISO date.
   */
  lemma FormatThenParse(d: Date)
    requires ValidDate(d) && d.year >= -543
    ensures |Split(FormatThaiDate(d), ' ')| == 3
    ensures ParseThaiDate(FormatThaiDate(d)) == IsoDateText(d)
  {
    var day, name, year := NatToString(d.day), ThaiMonthNames[d.month - 1], IntToString(d.year + 543);
    NoSpaceInNumberText(d.day);
    NoSpaceInMonthName(d.month);
    NoSpaceInNumberText(d.year + 543);
    var parts := [day, name, year];
    assert Join(parts, ' ') == FormatThaiDate(d) by {
      assert parts[1..] == [name, year];
      assert Join(parts[1..], ' ') == name + [' '] + year;
    }
    SplitJoin(parts, ' ');
    ParseIntOfNatToString(d.year + 543);
    MonthNameCode(d.month);
  }

  // ---------------------------------------------------------------------

  /** The component's state. */
  class Search {
    var selectedDate: Option<Date>
    var searchResult: Option<PreviousDraw>
    var hasSearched: bool

    /** A result is only ever shown after a search. */
    predicate Valid()
      reads this
    {
      searchResult.Some? ==> hasSearched
    }

    constructor ()
      ensures Valid()
      ensures selectedDate == None && searchResult == None && !hasSearched
    {
      selectedDate := None;
      searchResult := None;
      hasSearched := false;
    }

    /** The picker's `onSelect`. */
    method Select(date: Option<Date>)
      requires Valid()
      modifies this
      ensures Valid()
      ensures selectedDate == date && searchResult == old(searchResult) && hasSearched == old(hasSearched)
    {
      selectedDate := date;
    }

    /**
     * `handleSearch`: nothing without a selected date; otherwise the
     * mutation's outcome, `None` when it threw (`onError`), else the value
     * `onSuccess` receives, is stored and `hasSearched` is set.
     */
    method HandleSearch(outcome: Option<Option<PreviousDraw>>)
      requires Valid()
      modifies this
      ensures Valid()
      ensures selectedDate == old(selectedDate)
      ensures old(selectedDate).None? ==> searchResult == old(searchResult) && hasSearched == old(hasSearched)
      ensures old(selectedDate).Some? ==>
        && hasSearched
        && searchResult == (if outcome.Some? then outcome.value else None)
    {
      if selectedDate.None? {
        return;
      }
      match outcome
      case Some(result) =>
        searchResult := result;
        hasSearched := true;
      case None =>
        searchResult := None;
        hasSearched := true;
    }

    /** `handleClear`: back to the initial state. */
    method HandleClear()
      modifies this
      ensures Valid()
      ensures selectedDate == None && searchResult == None && !hasSearched
    {
      selectedDate := None;
      searchResult := None;
      hasSearched := false;
    }
  }

  /**
   * A search for a selected date whose mutation settles normally shows what
   * `useSearchLotteryByDate` resolves to: the cached row for that date, else
   * the edge function's record, else nothing.
   */
  method SearchSelected(s: Search, fmt: Formatters, cached: Option<Row>, invoke: Invoke<Row>)
    requires s.Valid() && s.selectedDate.Some?
    modifies s
    ensures s.Valid() && s.hasSearched && s.selectedDate == old(s.selectedDate)
    ensures s.searchResult == SearchByDate(fmt, cached, invoke)
  {
    s.HandleSearch(Some(SearchByDate(fmt, cached, invoke)));
  }
}
