/**
 * The ticket checker of src/components/NumberChecker.tsx: the matcher that
 * lists the prizes a six-digit ticket wins against a result, the input
 * sanitiser, and the component state they update. Prize labels are the
 * translation keys the component passes to `t`.
 */
module NumberChecker {
  import opened Wrappers
  import opened Text
  import opened Records

  datatype MatchType = Full | Front3 | Last3 | Last2

  datatype PrizeMatch = PrizeMatch(prizeName: string, prizeAmount: string, matchType: MatchType)

  const FirstPrizeMatch := PrizeMatch("firstPrize.title", "6,000,000", Full)
  const Front3Match := PrizeMatch("quickResults.front3", "4,000", Front3)
  const Last3Match := PrizeMatch("quickResults.last3", "4,000", Last3)
  const Last2Match := PrizeMatch("quickResults.last2", "2,000", Last2)

  /** `ticketNumber.length === 6 && /^\d+$/.test(ticketNumber)`. */
  predicate Checkable(ticket: string) {
    |ticket| == 6 && AllDigits(ticket)
  }

  /** The full-number match one prize tier contributes. */
  function TierMatch(prize: Prize, ticket: string): seq<PrizeMatch> {
    if ticket in prize.numbers then [PrizeMatch(prize.name, prize.amount, Full)] else []
  }

  /** The matches of the `forEach` over the prize tiers, in tier order. */
  function TierMatches(prizes: seq<Prize>, ticket: string): seq<PrizeMatch>
    decreases |prizes|
  {
    if prizes == [] then []
    else TierMatches(prizes[..|prizes| - 1], ticket) + TierMatch(prizes[|prizes| - 1], ticket)
  }

  /** The full-number matches: the first prize, then the tiers. */
  function FullMatches(ticket: string, result: LotteryResult): seq<PrizeMatch> {
    (if ticket == result.firstPrize then [FirstPrizeMatch] else []) + TierMatches(result.prizes, ticket)
  }

  /** The partial matches: front 3, last 3 and last 2 digits. */
  function PartMatches(ticket: string, result: LotteryResult): seq<PrizeMatch>
    requires |ticket| == 6
  {
    (if ticket[..3] in result.front3 then [Front3Match] else [])
    + (if ticket[3..] in result.last3 then [Last3Match] else [])
    + (if ticket[4..] == result.last2 then [Last2Match] else [])
  }

  /** What `checkNumber` stores in `matches` for a six-character ticket. */
  function Matches(ticket: string, result: LotteryResult): seq<PrizeMatch>
    requires |ticket| == 6
  {
    FullMatches(ticket, result) + PartMatches(ticket, result)
  }

  /** The position of a match type in the list: full numbers, then front 3, last 3, last 2. */
  function Rank(t: MatchType): nat {
    match t
    case Full => 0
    case Front3 => 1
    case Last3 => 2
    case Last2 => 3
  }

  /** `value.replace(/\D/g, '')`. */
  function DigitsOnly(s: string): string
    decreases |s|
  {
    if s == [] then []
    else (if IsDigit(s[0]) then [s[0]] else []) + DigitsOnly(s[1..])
  }

  /** `handleInputChange`'s value: the digits, cut to the first six. */
  function Sanitised(s: string): string {
    var digits := DigitsOnly(s);
    if |digits| <= 6 then digits else digits[..6]
  }

  // ---------------------------------------------------------------------
  // the matcher

  /** A tier listing the ticket, named by its index. */
  predicate ListsTicket(prizes: seq<Prize>, ticket: string, i: int) {
    0 <= i < |prizes| && ticket in prizes[i].numbers
  }

  /** The full match tier `i` contributes. */
  function TierEntry(prizes: seq<Prize>, i: int): PrizeMatch
    requires 0 <= i < |prizes|
  {
    PrizeMatch(prizes[i].name, prizes[i].amount, Full)
  }

  /** At most one tier match per tier. */
  lemma {:induction false} TierMatchesBound(prizes: seq<Prize>, ticket: string)
    ensures |TierMatches(prizes, ticket)| <= |prizes|
    decreases |prizes|
  {
    if prizes != [] {
      TierMatchesBound(prizes[..|prizes| - 1], ticket);
    }
  }

  /** Every tier match is the full match of a tier listing the ticket. */
  lemma {:induction false} TierMatchesSound(prizes: seq<Prize>, ticket: string, k: int)
    requires 0 <= k < |TierMatches(prizes, ticket)|
    ensures exists i :: ListsTicket(prizes, ticket, i) && TierMatches(prizes, ticket)[k] == TierEntry(prizes, i)
    decreases |prizes|
  {
    var front := prizes[..|prizes| - 1];
    var m := TierMatches(prizes, ticket);
    assert m == TierMatches(front, ticket) + TierMatch(prizes[|prizes| - 1], ticket);
    if k < |TierMatches(front, ticket)| {
      TierMatchesSound(front, ticket, k);
      var i :| ListsTicket(front, ticket, i) && TierMatches(front, ticket)[k] == TierEntry(front, i);
      assert prizes[i] == front[i];
      assert ListsTicket(prizes, ticket, i) && m[k] == TierEntry(prizes, i);
    } else {
      assert ListsTicket(prizes, ticket, |prizes| - 1) && m[k] == TierEntry(prizes, |prizes| - 1);
    }
  }

  /** Every tier listing the ticket has its full match among the tier matches. */
  lemma {:induction false} TierMatchesComplete(prizes: seq<Prize>, ticket: string, i: int)
    requires ListsTicket(prizes, ticket, i)
    ensures TierEntry(prizes, i) in TierMatches(prizes, ticket)
    decreases |prizes|
  {
    var front := prizes[..|prizes| - 1];
    assert TierMatches(prizes, ticket) == TierMatches(front, ticket) + TierMatch(prizes[|prizes| - 1], ticket);
    if i < |front| {
      assert prizes[i] == front[i];
      TierMatchesComplete(front, ticket, i);
    }
  }

  /** At most one match per tier plus four. */
  lemma MatchesCount(ticket: string, result: LotteryResult)
    requires |ticket| == 6
    ensures |Matches(ticket, result)| <= |result.prizes| + 4
  {
    TierMatchesBound(result.prizes, ticket);
  }

  /** Every full match is first in the list. */
  lemma FullMatchesAreFull(ticket: string, result: LotteryResult, k: int)
    requires 0 <= k < |FullMatches(ticket, result)|
    ensures FullMatches(ticket, result)[k].matchType == Full
  {
    var first := if ticket == result.firstPrize then [FirstPrizeMatch] else [];
    if k >= |first| {
      TierMatchesSound(result.prizes, ticket, k - |first|);
    }
  }

  /** Full matches come first, then at most one each of front 3, last 3 and last 2, in that order. */
  lemma MatchesOrder(ticket: string, result: LotteryResult)
    requires |ticket| == 6
    ensures var m := Matches(ticket, result);
      forall i, j :: 0 <= i < j < |m| ==> Rank(m[i].matchType) < Rank(m[j].matchType) || m[j].matchType == Full
  {
    var full := FullMatches(ticket, result);
    var part := PartMatches(ticket, result);
    var m := Matches(ticket, result);
    assert forall i, j :: 0 <= i < j < |part| ==> Rank(part[i].matchType) < Rank(part[j].matchType);
    forall i, j | 0 <= i < j < |m|
      ensures Rank(m[i].matchType) < Rank(m[j].matchType) || m[j].matchType == Full
    {
      if j < |full| {
        FullMatchesAreFull(ticket, result, j);
      } else if i >= |full| {
        assert m[j] == part[j - |full|] && m[i] == part[i - |full|];
      } else {
        FullMatchesAreFull(ticket, result, i);
        assert m[j] == part[j - |full|];
      }
    }
  }

  /** Some tier match exists exactly when some tier lists the ticket. */
  lemma TierMatchesNonEmptyIff(prizes: seq<Prize>, ticket: string)
    ensures |TierMatches(prizes, ticket)| > 0 <==> exists j :: ListsTicket(prizes, ticket, j)
  {
    if |TierMatches(prizes, ticket)| > 0 {
      TierMatchesSound(prizes, ticket, 0);
    } else if exists j :: ListsTicket(prizes, ticket, j) {
      var j :| ListsTicket(prizes, ticket, j);
      TierMatchesComplete(prizes, ticket, j);
    }
  }

  /** There is a full match exactly when the ticket is the first prize or a tier lists it. */
  lemma FullMatchIff(ticket: string, result: LotteryResult)
    requires |ticket| == 6
    ensures var m := Matches(ticket, result);
      (exists i :: 0 <= i < |m| && m[i].matchType == Full) <==>
        ticket == result.firstPrize || exists j :: ListsTicket(result.prizes, ticket, j)
  {
    TierMatchesNonEmptyIff(result.prizes, ticket);
    var full := FullMatches(ticket, result);
    var part := PartMatches(ticket, result);
    var m := Matches(ticket, result);
    assert |full| > 0 <==> ticket == result.firstPrize || |TierMatches(result.prizes, ticket)| > 0;
    if |full| > 0 {
      FullMatchesAreFull(ticket, result, 0);
      assert m[0] == full[0];
    } else {
      assert m == part;
      assert forall k :: 0 <= k < |part| ==> part[k].matchType != Full;
    }
  }

  /** Each partial match is present exactly when its part of the ticket is drawn. */
  lemma PartMatchIff(ticket: string, result: LotteryResult)
    requires |ticket| == 6
    ensures var m := Matches(ticket, result);
      && (Front3Match in m <==> ticket[..3] in result.front3)
      && (Last3Match in m <==> ticket[3..] in result.last3)
      && (Last2Match in m <==> ticket[4..] == result.last2)
  {
    var full := FullMatches(ticket, result);
    var part := PartMatches(ticket, result);
    var m := Matches(ticket, result);
    forall k | 0 <= k < |full| ensures full[k].matchType == Full {
      FullMatchesAreFull(ticket, result, k);
    }
    assert Front3Match in m <==> Front3Match in part;
    assert Last3Match in m <==> Last3Match in part;
    assert Last2Match in m <==> Last2Match in part;
  }

  /** A first-prize ticket that a tier also lists gets two full matches, the first prize's coming first. */
  lemma FirstPrizeListedTwice(ticket: string, result: LotteryResult, j: int)
    requires |ticket| == 6 && ticket == result.firstPrize && ListsTicket(result.prizes, ticket, j)
    ensures var m := Matches(ticket, result);
      |m| >= 2 && m[0] == FirstPrizeMatch && m[1].matchType == Full
  {
    TierMatchesComplete(result.prizes, ticket, j);
    var tiers := TierMatches(result.prizes, ticket);
    FullMatchesAreFull(ticket, result, 1);
    assert Matches(ticket, result)[1] == FullMatches(ticket, result)[1];
  }

  /** The `forEach` over the tiers: push the full match of every tier that lists the ticket. */
  method PushTierMatches(start: seq<PrizeMatch>, prizes: seq<Prize>, ticket: string) returns (found: seq<PrizeMatch>)
    ensures found == start + TierMatches(prizes, ticket)
  {
    found := start;
    var i := 0;
    while i < |prizes|
      invariant 0 <= i <= |prizes|
      invariant found == start + TierMatches(prizes[..i], ticket)
    {
      var prize := prizes[i];
      assert prizes[..i + 1][..i] == prizes[..i];
      if ticket in prize.numbers {
        found := found + [PrizeMatch(prize.name, prize.amount, Full)];
      }
      i := i + 1;
    }
    assert prizes[..i] == prizes;
  }

  /** The matcher proper: `found` built by pushing, in the order of `checkNumber`. */
  method MatchTicket(ticket: string, result: LotteryResult) returns (found: seq<PrizeMatch>)
    requires |ticket| == 6
    ensures found == Matches(ticket, result)
  {
    found := [];
    var front3 := ticket[..3];
    var last3 := ticket[3..];
    var last2 := ticket[4..];
    if ticket == result.firstPrize {
      found := found + [FirstPrizeMatch];
    }
    found := PushTierMatches(found, result.prizes, ticket);
    ghost var full := found;
    assert full == FullMatches(ticket, result);
    ghost var f3 := if front3 in result.front3 then [Front3Match] else [];
    ghost var l3 := if last3 in result.last3 then [Last3Match] else [];
    ghost var l2 := if last2 == result.last2 then [Last2Match] else [];
    if front3 in result.front3 {
      found := found + [Front3Match];
    }
    assert found == full + f3;
    if last3 in result.last3 {
      found := found + [Last3Match];
    }
    assert found == full + f3 + l3;
    if last2 == result.last2 {
      found := found + [Last2Match];
    }
    assert found == full + f3 + l3 + l2;
    assert PartMatches(ticket, result) == f3 + l3 + l2;
    assert full + f3 + l3 + l2 == full + (f3 + l3 + l2);
  }

  // ---------------------------------------------------------------------
  // the sanitiser

  /** Keeping the digits distributes over concatenation. */
  lemma {:induction false} DigitsOnlyAppend(a: string, b: string)
    ensures DigitsOnly(a + b) == DigitsOnly(a) + DigitsOnly(b)
    decreases |a|
  {
    if a != [] {
      assert (a + b)[1..] == a[1..] + b;
      DigitsOnlyAppend(a[1..], b);
    } else {
      assert a + b == b;
    }
  }

  /** The kept text is all digits, no longer than the input, and a text of digits is kept whole. */
  lemma {:induction false} DigitsOnlyKeepsDigits(s: string)
    ensures AllDigits(DigitsOnly(s)) && |DigitsOnly(s)| <= |s|
    ensures AllDigits(s) ==> DigitsOnly(s) == s
    decreases |s|
  {
    if s != [] {
      DigitsOnlyKeepsDigits(s[1..]);
      var head := if IsDigit(s[0]) then [s[0]] else [];
      assert DigitsOnly(s) == head + DigitsOnly(s[1..]);
      if AllDigits(s) {
        assert AllDigits(s[1..]) by {
          forall i | 0 <= i < |s[1..]| ensures IsDigit(s[1..][i]) {
            assert s[1..][i] == s[i + 1];
          }
        }
        assert s == [s[0]] + s[1..];
      }
    }
  }

  /** The sanitised value is at most six digits, the first digits of the input, in order. */
  lemma SanitisedShape(s: string)
    ensures var r := Sanitised(s);
      && AllDigits(r) && |r| <= 6
      && r == DigitsOnly(s)[..|r|]
      && (|DigitsOnly(s)| <= 6 ==> r == DigitsOnly(s))
  {
    DigitsOnlyKeepsDigits(s);
  }

  /** Sanitising twice is sanitising once. */
  lemma SanitiseIdempotent(s: string)
    ensures Sanitised(Sanitised(s)) == Sanitised(s)
  {
    SanitisedShape(s);
    DigitsOnlyKeepsDigits(Sanitised(s));
  }

  // ---------------------------------------------------------------------

  /** The component's state; `result` is its prop. */
  class Checker {
    const result: LotteryResult
    var ticket: string
    var matches: Option<seq<PrizeMatch>>
    var hasChecked: bool

    /** The ticket only ever holds sanitised input, and a shown check belongs to the current ticket. */
    ghost predicate Valid()
      reads this
    {
      && AllDigits(ticket) && |ticket| <= 6
      && (hasChecked ==> |ticket| == 6 && matches == Some(Matches(ticket, result)))
    }

    constructor (result: LotteryResult)
      ensures Valid() && this.result == result
      ensures ticket == "" && matches == None && !hasChecked
    {
      this.result := result;
      ticket := "";
      matches := None;
      hasChecked := false;
    }

    /** `checkNumber`: nothing happens unless the ticket is six digits. */
    method CheckNumber()
      requires Valid()
      modifies this
      ensures Valid() && ticket == old(ticket)
      ensures Checkable(ticket) ==> matches == Some(Matches(ticket, result)) && hasChecked
      ensures !Checkable(ticket) ==> matches == old(matches) && hasChecked == old(hasChecked)
    {
      if |ticket| != 6 || !AllDigits(ticket) {
        return;
      }
      var found := MatchTicket(ticket, result);
      matches := Some(found);
      hasChecked := true;
    }

    /** `handleInputChange`: store the sanitised value and hide the last check. */
    method HandleInputChange(value: string)
      requires Valid()
      modifies this
      ensures Valid()
      ensures ticket == Sanitised(value) && !hasChecked && matches == old(matches)
    {
      SanitisedShape(value);
      ticket := Sanitised(value);
      hasChecked := false;
    }

    /** `handleKeyDown`: Enter checks a six-character ticket; every other key changes nothing. */
    method HandleKeyDown(key: string)
      requires Valid()
      modifies this
      ensures Valid() && ticket == old(ticket)
      ensures key == "Enter" && |ticket| == 6 ==> hasChecked && matches == Some(Matches(ticket, result))
      ensures !(key == "Enter" && |ticket| == 6) ==> matches == old(matches) && hasChecked == old(hasChecked)
    {
      if key == "Enter" && |ticket| == 6 {
        CheckNumber();
      }
    }
  }
}
