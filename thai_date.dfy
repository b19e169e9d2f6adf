/**
 * `parseThaiDate`: "<day> <Thai month name> <Buddhist-Era year>" to
 * `YYYY-MM-DD`. The edge functions carry three copies with the same month
 * table; fetch-lottery and fetch-previous-draws return the input unchanged
 * when the text does not split into three tokens, fetch-lottery-by-date
 * returns the empty string instead.
 */
module ThaiDate {
  import opened Wrappers
  import opened Text

  /** The `thaiMonths` record: Thai month name to two-digit month number. */
  const ThaiMonthCodes: map<string, string> := map[
    "มกราคม" := "01", "กุมภาพันธ์" := "02", "มีนาคม" := "03", "เมษายน" := "04",
    "พฤษภาคม" := "05", "มิถุนายน" := "06", "กรกฎาคม" := "07", "สิงหาคม" := "08",
    "กันยายน" := "09", "ตุลาคม" := "10", "พฤศจิกายน" := "11", "ธันวาคม" := "12"
  ]

  /** `thaiMonths[name] || '01'`: a name outside the table falls back to January. */
  function MonthCode(name: string): string {
    if name in ThaiMonthCodes then ThaiMonthCodes[name] else "01"
  }

  /** `(parseInt(token) - 543).toString()`, where NaN prints as "NaN". */
  function GregorianYearText(token: string): string {
    match JsParseInt(token)
    case None => "NaN"
    case Some(buddhistYear) => IntToString(buddhistYear - 543)
  }

  /** The ISO text built from the day, month and year tokens. */
  function IsoFromTokens(parts: seq<string>): string
    requires |parts| == 3
  {
    GregorianYearText(parts[2]) + "-" + MonthCode(parts[1]) + "-" + PadStart2(parts[0])
  }

  /** The copy in fetch-lottery and fetch-previous-draws: a wrong token count returns the input. */
  function ParseThaiDate(thaiDate: string): string {
    var parts := Split(thaiDate, ' ');
    if |parts| != 3 then thaiDate else IsoFromTokens(parts)
  }

  /** The copy in fetch-lottery-by-date: a wrong token count returns the empty string. */
  function ParseThaiDateOrEmpty(thaiDate: string): string {
    var parts := Split(thaiDate, ' ');
    if |parts| != 3 then "" else IsoFromTokens(parts)
  }

  // ---------------------------------------------------------------------

  lemma NoSpaceInNumberText(i: int)
    ensures ' ' !in IntToString(i)
  {
    var n: nat := if i < 0 then -i else i;
    var s := NatToString(n);
    NatToStringDigits(n);
    assert forall k :: 0 <= k < |s| ==> IsDigit(s[k]);
  }

  lemma NoSpaceInMonthCode(name: string)
    ensures ' ' !in MonthCode(name) && |MonthCode(name)| == 2
  {
  }

  /** The ISO text built from three tokens has no space in it, and has a '-' after the year. */
  lemma IsoFromTokensShape(parts: seq<string>)
    requires |parts| == 3
    requires forall i :: 0 <= i < 3 ==> ' ' !in parts[i]
    ensures ' ' !in IsoFromTokens(parts)
    ensures '-' in IsoFromTokens(parts)
  {
    var y := GregorianYearText(parts[2]);
    assert ' ' !in y by {
      match JsParseInt(parts[2])
      case None =>
      case Some(be) => NoSpaceInNumberText(be - 543);
    }
    NoSpaceInMonthCode(parts[1]);
    var d := PadStart2(parts[0]);
    assert ' ' !in d by {
      forall k | 0 <= k < |d| ensures d[k] != ' ' {
        if k >= |d| - |parts[0]| {
          assert d[k] == d[|d| - |parts[0]|..][k - (|d| - |parts[0]|)];
        }
      }
    }
    var r := IsoFromTokens(parts);
    assert r == y + "-" + MonthCode(parts[1]) + "-" + d;
    assert r[|y|] == '-';
  }

  /** Text that splits into three tokens has a space in it. */
  lemma ThreeTokensHaveSpace(s: string)
    requires |Split(s, ' ')| == 3
    ensures ' ' in s
  {
    var parts := Split(s, ' ');
    JoinSplit(s, ' ');
    assert s == parts[0] + [' '] + Join(parts[1..], ' ');
    assert s[|parts[0]|] == ' ';
  }

  /** fetch-lottery's copy returns exactly its input when, and only when, the text is not three tokens. */
  lemma ParseThaiDateUnchangedIff(s: string)
    ensures ParseThaiDate(s) == s <==> |Split(s, ' ')| != 3
  {
    var parts := Split(s, ' ');
    if |parts| == 3 {
      IsoFromTokensShape(parts);
      ThreeTokensHaveSpace(s);
    }
  }

  /** fetch-lottery-by-date's copy returns "" when, and only when, the text is not three tokens. */
  lemma ParseThaiDateOrEmptyIff(s: string)
    ensures ParseThaiDateOrEmpty(s) == "" <==> |Split(s, ' ')| != 3
  {
    var parts := Split(s, ' ');
    if |parts| == 3 {
      IsoFromTokensShape(parts);
    }
  }

  /** The two copies agree on every text; only their failure value differs. */
  lemma ParseThaiDateCopiesAgree(s: string)
    ensures ParseThaiDateOrEmpty(s) == if ParseThaiDate(s) == s then "" else ParseThaiDate(s)
  {
    ParseThaiDateUnchangedIff(s);
  }

  /** Every month code is a two-digit month number; names outside the table read as January. */
  lemma MonthCodeIsMonthNumber(name: string)
    ensures |MonthCode(name)| == 2 && AllDigits(MonthCode(name))
    ensures 1 <= DigitsValue(MonthCode(name)) <= 12
    ensures name !in ThaiMonthCodes ==> DigitsValue(MonthCode(name)) == 1
  {
    var c := MonthCode(name);
    assert c in {"01", "02", "03", "04", "05", "06", "07", "08", "09", "10", "11", "12"};
  }
}
