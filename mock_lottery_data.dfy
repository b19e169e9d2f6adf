/**
 * src/data/mockLotteryData.ts: `getNextDrawDate`, the next 15:00 draw on the
 * 1st or the 16th, and the fixtures `currentResult` and `previousDraws`.
 */
module MockLotteryData {
  import opened Wrappers
  import opened Text
  import opened Calendar
  import opened Records
  import opened NumberChecker

  /** `new Date(year, month, day, 15, 0, 0)`, with the month counted from January of year 0 so that overflow rolls into the next year. */
  function DrawAt(monthIndex: int, day: int): (m: Moment)
    ensures MonthIndex(m.date) == monthIndex && m.date.day == day
  {
    Moment(DateAt(monthIndex, day), 15, 0, 0, 0)
  }

  /** The first candidate: the 1st (for a day before the 1st), the 16th of this month, or the 1st of next month. */
  function DrawCandidate(now: Moment): Moment {
    var today := now.date;
    if today.day < 1 then DrawAt(MonthIndex(today), 1)
    else if today.day < 16 then DrawAt(MonthIndex(today), 16)
    else DrawAt(MonthIndex(today) + 1, 1)
  }

  /** `getNextDrawDate`: the candidate, moved on by one draw when it is not after `now`. */
  function NextDrawDate(now: Moment): Moment {
    var candidate := DrawCandidate(now);
    if !MomentBefore(now, candidate) then
      if candidate.date.day == 1 then DrawAt(MonthIndex(candidate.date), 16)
      else DrawAt(MonthIndex(candidate.date) + 1, 1)
    else candidate
  }

  /** The candidate is already after `now`, so the second step never moves it, and the branch for a day before the 1st is dead. */
  lemma CandidateIsFinal(now: Moment)
    requires ValidMoment(now)
    ensures now.date.day >= 1
    ensures MomentBefore(now, DrawCandidate(now)) && NextDrawDate(now) == DrawCandidate(now)
  {
  }

  /**
   * The next draw is 15:00 on a draw day: the 16th of this month before
   * the 16th, else the 1st of next month, December rolling over to January.
   */
  lemma NextDrawDateShape(now: Moment)
    requires ValidMoment(now)
    ensures var r := NextDrawDate(now);
      && ValidMoment(r) && IsDrawDay(r.date)
      && r.hour == 15 && r.minute == 0 && r.second == 0 && r.millis == 0
      && r.date == (if now.date.day < 16 then Date(now.date.year, now.date.month, 16)
                    else if now.date.month == 12 then Date(now.date.year + 1, 1, 1)
                    else Date(now.date.year, now.date.month + 1, 1))
  {
    CandidateIsFinal(now);
  }

  /** The next draw falls on a later day than `now`, and no draw day lies strictly between the two. */
  lemma NextDrawIsFirstDrawDayAfterToday(now: Moment, d: Date)
    requires ValidMoment(now) && ValidDate(d) && IsDrawDay(d) && DateBefore(now.date, d)
    ensures DateBefore(now.date, NextDrawDate(now).date)
    ensures !DateBefore(d, NextDrawDate(now).date)
  {
    CandidateIsFinal(now);
  }

  /** On a draw day, even before 15:00, that day's draw is skipped: the next draw returned is on a later day. */
  lemma SameDayDrawSkipped(now: Moment)
    requires ValidMoment(now) && IsDrawDay(now.date) && now.hour < 15
    ensures MomentBefore(now, Moment(now.date, 15, 0, 0, 0))
    ensures DateBefore(now.date, NextDrawDate(now).date)
  {
    CandidateIsFinal(now);
  }

  // ---------------------------------------------------------------------
  // fixtures

  const EnglishMonths: seq<string> := [
    "January", "February", "March", "April", "May", "June",
    "July", "August", "September", "October", "November", "December"]

  /** How the fixtures write a date: day, English month name, year. */
  function FixtureDateText(d: Date): string
    requires ValidDate(d) && d.year >= 0
  {
    NatToString(d.day) + " " + EnglishMonths[d.month - 1] + " " + NatToString(d.year)
  }

  const CurrentResult: LotteryResult := LotteryResult(
    "1 January 2026", "15:00", true, Updated, "835492", ["583", "142"], ["927", "456"], "81",
    [
      Prize(None, "1st Prize", [
        "835492"
      ], "6,000,000"),
      Prize(None, "2nd Prize", [
        "247891", "536284", "891234", "427156", "983271"
      ], "200,000"),
      Prize(None, "3rd Prize", [
        "528417", "934156", "162839", "847291", "516283", "729418", "384156", "941627",
        "215839", "638492"
      ], "80,000"),
      Prize(None, "4th Prize", [
        "291847", "516293", "847162", "293847", "516283", "847291", "293516", "847162",
        "291516", "516847", "847293", "291847", "516283", "847162", "293516", "847291",
        "291516", "516847", "847293", "291847", "516283", "847162", "293516", "847291",
        "291516", "516847", "847293", "291847", "516283", "847162", "293516", "847291",
        "291516", "516847", "847293", "291847", "516283", "847162", "293516", "847291",
        "291516", "516847", "847293", "291847", "516283", "847162", "293516", "847291",
        "291516", "516847"
      ], "40,000"),
      Prize(None, "5th Prize", [
        "183749", "284716", "918274", "472918", "829471", "394827", "182947", "928374",
        "472918", "829147", "394827", "182749", "928374", "472918", "829471", "394827",
        "182947", "928374", "472918", "829147", "394827", "182749", "928374", "472918",
        "829471", "394827", "182947", "928374", "472918", "829147", "394827", "182749",
        "928374", "472918", "829471", "394827", "182947", "928374", "472918", "829147",
        "394827", "182749", "928374", "472918", "829471", "394827", "182947", "928374",
        "472918", "829147", "394827", "182749", "928374", "472918", "829471", "394827",
        "182947", "928374", "472918", "829147", "394827", "182749", "928374", "472918",
        "829471", "394827", "182947", "928374", "472918", "829147", "394827", "182749",
        "928374", "472918", "829471", "394827", "182947", "928374", "472918", "829147",
        "394827", "182749", "928374", "472918", "829471", "394827", "182947", "928374",
        "472918", "829147", "394827", "182749", "928374", "472918", "829471", "394827",
        "182947", "928374", "472918", "829147"
      ], "20,000")
    ],
    None)

  const PreviousDraws: seq<PreviousDraw> := [
    PreviousDraw("16 December 2025", "472918", ["294", "817"], ["639", "182"], "47", None),
    PreviousDraw("1 December 2025", "918274", ["715", "392"], ["548", "291"], "63", None),
    PreviousDraw("16 November 2025", "629184", ["183", "529"], ["716", "394"], "28", None),
    PreviousDraw("1 November 2025", "384729", ["492", "718"], ["839", "472"], "91", None),
    PreviousDraw("16 October 2025", "716293", ["847", "291"], ["628", "194"], "54", None)
  ]

  /** The days the fixture's previous draws name, in fixture order. */
  const PreviousDrawDays: seq<Date> := [
    Date(2025, 12, 16), Date(2025, 12, 1), Date(2025, 11, 16), Date(2025, 11, 1), Date(2025, 10, 16)]

  /** The number texts the fixture dates use. */
  lemma NumberTexts()
    ensures NatToString(1) == "1" && NatToString(16) == "16" && NatToString(2025) == "2025"
  {
    assert NatToString(2) == "2";
    assert NatToString(20) == "20";
    assert NatToString(202) == "202";
  }

  // One lemma per fixture entry: each compares one literal text, and a
  // single lemma over all five is more than the solver takes in one go.

  lemma FixtureDateText0()
    ensures FixtureDateText(PreviousDrawDays[0]) == PreviousDraws[0].drawDate
  {
    NumberTexts();
  }

  lemma FixtureDateText1()
    ensures FixtureDateText(PreviousDrawDays[1]) == PreviousDraws[1].drawDate
  {
    NumberTexts();
  }

  lemma FixtureDateText2()
    ensures FixtureDateText(PreviousDrawDays[2]) == PreviousDraws[2].drawDate
  {
    NumberTexts();
  }

  lemma FixtureDateText3()
    ensures FixtureDateText(PreviousDrawDays[3]) == PreviousDraws[3].drawDate
  {
    NumberTexts();
  }

  lemma FixtureDateText4()
    ensures FixtureDateText(PreviousDrawDays[4]) == PreviousDraws[4].drawDate
  {
    NumberTexts();
  }

  /**
   * The fixture's previous draws are written with the dates of consecutive
   * draw days, strictly newest first, and each has two front-3 and two
   * last-3 numbers.
   */
  lemma PreviousDrawsFixtureShape()
    ensures |PreviousDraws| == |PreviousDrawDays|
    ensures forall i :: 0 <= i < |PreviousDraws| ==>
      && ValidDate(PreviousDrawDays[i]) && IsDrawDay(PreviousDrawDays[i])
      && FixtureDateText(PreviousDrawDays[i]) == PreviousDraws[i].drawDate
      && |PreviousDraws[i].front3| == 2 && |PreviousDraws[i].last3| == 2
    ensures forall i, j :: 0 <= i < j < |PreviousDrawDays| ==> DateBefore(PreviousDrawDays[j], PreviousDrawDays[i])
  {
    FixtureDateText0();
    FixtureDateText1();
    FixtureDateText2();
    FixtureDateText3();
    FixtureDateText4();
  }

  /** The fixture's first-prize ticket is also listed in its "1st Prize" tier, so it gets two full matches. */
  lemma FixtureFirstPrizeMatchesTwice()
    ensures var m := Matches("835492", CurrentResult);
      |m| >= 2 && m[0] == FirstPrizeMatch && m[1].matchType == Full
  {
    assert ListsTicket(CurrentResult.prizes, "835492", 0);
    FirstPrizeListedTwice("835492", CurrentResult, 0);
  }
}
