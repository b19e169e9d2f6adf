/**
 * The result normaliser the three edge functions share: prize and
 * running-number entries are looked up by fixed id with `find`, and a
 * missing entry gives `''` or `[]` instead of an error.
 */
module Normaliser {
  import opened Wrappers
  import opened Records

  const FirstPrizeId := "prizeFirst"
  const FrontThreeId := "runningNumberFrontThree"
  const BackThreeId := "runningNumberBackThree"
  const BackTwoId := "runningNumberBackTwo"

  /** `entries.find(p => p.id === id)`: the first entry carrying `id`, if any. */
  function FindEntry(entries: seq<PrizeEntry>, id: string): (r: Option<PrizeEntry>)
    ensures r.None? <==> forall i :: 0 <= i < |entries| ==> entries[i].id != id
    ensures r.Some? ==> exists i :: 0 <= i < |entries| && entries[i] == r.value && IsFirstWithId(entries, id, i)
    decreases |entries|
  {
    if entries == [] then None
    else if entries[0].id == id then
      assert IsFirstWithId(entries, id, 0);
      Some(entries[0])
    else
      var r := FindEntry(entries[1..], id);
      if r.Some? then
        var i :| 0 <= i < |entries| - 1 && entries[1..][i] == r.value && IsFirstWithId(entries[1..], id, i);
        assert IsFirstWithId(entries, id, i + 1);
        r
      else r
  }

  /** Position `i` holds the first entry whose id is `id`. */
  predicate IsFirstWithId(entries: seq<PrizeEntry>, id: string, i: int) {
    0 <= i < |entries| && entries[i].id == id && forall j :: 0 <= j < i ==> entries[j].id != id
  }

  /** `find(id)?.number[0] || ''`. */
  function FirstNumberOf(entries: seq<PrizeEntry>, id: string): string {
    match FindEntry(entries, id)
    case Some(e) => if |e.number| > 0 then e.number[0] else ""
    case None => ""
  }

  /** `find(id)?.number || []`. */
  function NumbersOf(entries: seq<PrizeEntry>, id: string): seq<string> {
    match FindEntry(entries, id)
    case Some(e) => e.number
    case None => []
  }

  /** The row an edge function writes for a fetched draw. */
  function BuildRecord(
    drawDate: string, drawDateThai: string, prizes: seq<PrizeEntry>, running: seq<PrizeEntry>,
    isLatest: bool, fetchedAt: int): Row
  {
    Row(drawDate, drawDateThai,
        FirstNumberOf(prizes, FirstPrizeId),
        NumbersOf(running, FrontThreeId),
        NumbersOf(running, BackThreeId),
        FirstNumberOf(running, BackTwoId),
        prizes, running, isLatest, fetchedAt)
  }

  /** The payload fields fetch-lottery and fetch-previous-draws dereference. */
  datatype Extracted = Extracted(date: string, prizes: seq<PrizeEntry>, running: seq<PrizeEntry>)

  /**
   * Reading the payload as fetch-lottery and fetch-previous-draws do: a missing
   * `response`, `date`, `prizes` or `runningNumbers` makes the source throw a
   * TypeError, here `None`.
   */
  function ReadPayload(response: Option<Payload>): Option<Extracted> {
    match response
    case None => None
    case Some(p) =>
      if p.date.Some? && p.prizes.Some? && p.runningNumbers.Some? then
        Some(Extracted(p.date.value, p.prizes.value, p.runningNumbers.value))
      else None
  }

  /**
   * The checks fetch-lottery makes in order: `response.ok`, then
   * `status === 'success'`, then the fields it dereferences.
   */
  function ReadReply(reply: Reply): (r: Result<Extracted, Failure>)
    ensures r.Ok? <==> reply.Body? && reply.status == "success" && ReadPayload(reply.response).Some?
  {
    match reply
    case Rejected => Err(Unreachable)
    case HttpError(code) => Err(RequestFailed(code))
    case Body(status, response) =>
      if status != "success" then Err(UnsuccessfulStatus)
      else match ReadPayload(response)
        case None => Err(MalformedPayload)
        case Some(x) => Ok(x)
  }

  // ---------------------------------------------------------------------

  /**
   * Every extracted field comes from the first entry with its id, or is the
   * empty default when no entry has that id.
   */
  lemma RecordTakesFirstEntries(
    drawDate: string, drawDateThai: string, prizes: seq<PrizeEntry>, running: seq<PrizeEntry>,
    isLatest: bool, fetchedAt: int)
    ensures var r := BuildRecord(drawDate, drawDateThai, prizes, running, isLatest, fetchedAt);
      && (forall i :: IsFirstWithId(prizes, FirstPrizeId, i) ==>
            r.firstPrize == if |prizes[i].number| > 0 then prizes[i].number[0] else "")
      && ((forall i :: 0 <= i < |prizes| ==> prizes[i].id != FirstPrizeId) ==> r.firstPrize == "")
      && (forall i :: IsFirstWithId(running, FrontThreeId, i) ==> r.front3 == running[i].number)
      && ((forall i :: 0 <= i < |running| ==> running[i].id != FrontThreeId) ==> r.front3 == [])
      && (forall i :: IsFirstWithId(running, BackThreeId, i) ==> r.last3 == running[i].number)
      && ((forall i :: 0 <= i < |running| ==> running[i].id != BackThreeId) ==> r.last3 == [])
      && (forall i :: IsFirstWithId(running, BackTwoId, i) ==>
            r.last2 == if |running[i].number| > 0 then running[i].number[0] else "")
      && ((forall i :: 0 <= i < |running| ==> running[i].id != BackTwoId) ==> r.last2 == "")
      && r.drawDate == drawDate && r.drawDateThai == drawDateThai
      && r.prizes == prizes && r.runningNumbers == running
      && r.isLatest == isLatest && r.fetchedAt == fetchedAt
  {
    forall id, entries, i | IsFirstWithId(entries, id, i)
      ensures FindEntry(entries, id) == Some(entries[i])
    {
      FirstWithIdUnique(entries, id, i);
    }
  }

  /** The first entry with an id is the one `find` returns. */
  lemma FirstWithIdUnique(entries: seq<PrizeEntry>, id: string, i: int)
    requires IsFirstWithId(entries, id, i)
    ensures FindEntry(entries, id) == Some(entries[i])
  {
    var r := FindEntry(entries, id);
    var k :| 0 <= k < |entries| && entries[k] == r.value && IsFirstWithId(entries, id, k);
    assert !(k < i) && !(i < k);
  }
}
