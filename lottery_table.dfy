/**
 * The `lottery_results` table the edge functions use as a cache: rows keyed
 * by their unique `draw_date`, at most one of them flagged `is_latest`.
 * The queries the handlers issue (`.eq('is_latest', true).single()`,
 * `.eq('draw_date', d).maybeSingle()`, the ordered and limited selection of
 * previous draws, the clear-latest update and the upsert) are the methods of
 * `Table`; the maps they produce are described by the functions above it.
 */
module LotteryTable {
  import opened Wrappers
  import opened Text
  import opened Records

  /** Every row is stored under its own draw date (`onConflict: 'draw_date'`). */
  predicate KeyedByDate(rows: map<string, Row>) {
    forall k :: k in rows ==> rows[k].drawDate == k
  }

  function LatestKeys(rows: map<string, Row>): set<string> {
    set k | k in rows && rows[k].isLatest
  }

  function NonLatestKeys(rows: map<string, Row>): set<string> {
    set k | k in rows && !rows[k].isLatest
  }

  predicate AtMostOneLatest(rows: map<string, Row>) {
    forall k1, k2 :: k1 in rows && k2 in rows && rows[k1].isLatest && rows[k2].isLatest ==> k1 == k2
  }

  /**
   * `.eq('is_latest', true).single()`: the latest row when exactly one row
   * carries the flag; none or several is an error the handlers treat as a miss.
   */
  ghost function SingleLatest(rows: map<string, Row>): (r: Option<Row>)
    ensures r.Some? <==> |LatestKeys(rows)| == 1
    ensures r.Some? ==> r.value.isLatest && exists k :: k in rows && rows[k] == r.value
  {
    var keys := LatestKeys(rows);
    if |keys| == 1 then
      var k :| k in keys;
      Some(rows[k])
    else None
  }

  /** `update({ is_latest: false }).eq('is_latest', true)`. */
  function Cleared(rows: map<string, Row>): map<string, Row> {
    map k | k in rows :: rows[k].(isLatest := false)
  }

  /** `upsert(record, { onConflict: 'draw_date' })`. */
  function Upserted(rows: map<string, Row>, row: Row): map<string, Row> {
    rows[row.drawDate := row]
  }

  /** Newest first: every later entry has a strictly earlier draw date. */
  predicate NewestFirst(rows: seq<Row>) {
    forall i, j :: 0 <= i < j < |rows| ==> StrBefore(rows[j].drawDate, rows[i].drawDate)
  }

  predicate HasDate(rows: seq<Row>, date: string) {
    exists i :: 0 <= i < |rows| && rows[i].drawDate == date
  }

  /** The greatest key of a non-empty set under the string order. */
  method NewestKey(keys: set<string>) returns (newest: string)
    requires keys != {}
    ensures newest in keys
    ensures forall k :: k in keys && k != newest ==> StrBefore(k, newest)
  {
    newest :| newest in keys;
    var todo := keys - {newest};
    while todo != {}
      invariant todo <= keys && newest in keys && newest !in todo
      invariant forall k :: k in keys - todo && k != newest ==> StrBefore(k, newest)
      decreases todo
    {
      var k :| k in todo;
      StrBeforeTotal(k, newest);
      if StrBefore(newest, k) {
        forall k' | k' in keys - todo && k' != newest
          ensures StrBefore(k', k)
        {
          StrBeforeTransitive(k', newest, k);
        }
        newest := k;
      }
      todo := todo - {k};
    }
  }

  /** Appending a row keeps every date held and adds the row's own. */
  lemma AppendKeepsDates(r: seq<Row>, row: Row)
    ensures HasDate(r + [row], row.drawDate)
    ensures forall k :: HasDate(r, k) ==> HasDate(r + [row], k)
  {
    assert (r + [row])[|r|] == row;
    forall k | HasDate(r, k)
      ensures HasDate(r + [row], k)
    {
      var i :| 0 <= i < |r| && r[i].drawDate == k;
      assert (r + [row])[i] == r[i];
    }
  }

  /** Appending a row older than every row held keeps the list newest first. */
  lemma AppendOlder(r: seq<Row>, row: Row)
    requires NewestFirst(r)
    requires forall i :: 0 <= i < |r| ==> StrBefore(row.drawDate, r[i].drawDate)
    ensures NewestFirst(r + [row])
  {
  }

  // ---------------------------------------------------------------------
  // what the writes do to the table

  /** After clearing and upserting a latest row, that row is the only latest one. */
  lemma ClearThenUpsertSingleLatest(rows: map<string, Row>, row: Row)
    requires row.isLatest
    ensures var after := Upserted(Cleared(rows), row);
      && AtMostOneLatest(after)
      && LatestKeys(after) == {row.drawDate}
      && SingleLatest(after) == Some(row)
  {
    var after := Upserted(Cleared(rows), row);
    assert LatestKeys(after) == {row.drawDate};
  }

  /** Upserting a row that is not flagged latest keeps the flag on at most one row. */
  lemma UpsertNonLatestKeepsAtMostOne(rows: map<string, Row>, row: Row)
    requires AtMostOneLatest(rows) && !row.isLatest
    ensures AtMostOneLatest(Upserted(rows, row))
    ensures LatestKeys(Upserted(rows, row)) == LatestKeys(rows) - {row.drawDate}
  {
  }

  /** An upsert replaces or adds exactly one date and leaves every other row as it was. */
  lemma UpsertTouchesOneDate(rows: map<string, Row>, row: Row)
    ensures var after := Upserted(rows, row);
      && after.Keys == rows.Keys + {row.drawDate}
      && |after| == (if row.drawDate in rows then |rows| else |rows| + 1)
      && after[row.drawDate] == row
      && forall k :: k in rows && k != row.drawDate ==> after[k] == rows[k]
  {
    var after := Upserted(rows, row);
    if row.drawDate in rows {
      assert after.Keys == rows.Keys;
    } else {
      assert after.Keys == rows.Keys + {row.drawDate};
      assert |after.Keys| == |rows.Keys| + 1;
    }
  }

  /** Both writes keep every row under its own draw date. */
  lemma WritesKeepKeys(rows: map<string, Row>, row: Row)
    requires KeyedByDate(rows)
    ensures KeyedByDate(Cleared(rows)) && KeyedByDate(Upserted(rows, row))
  {
  }

  /** Clearing keeps every row and leaves none flagged latest. */
  lemma ClearedHasNoLatest(rows: map<string, Row>)
    ensures Cleared(rows).Keys == rows.Keys && LatestKeys(Cleared(rows)) == {}
    ensures forall k :: k in rows ==> Cleared(rows)[k] == rows[k].(isLatest := false)
  {
  }

  // ---------------------------------------------------------------------

  class Table {
    var rows: map<string, Row>

    ghost predicate Valid()
      reads this
    {
      KeyedByDate(rows)
    }

    constructor ()
      ensures Valid() && rows == map[]
    {
      rows := map[];
    }

    /** `.eq('is_latest', true).single()`. */
    method FindLatest() returns (r: Option<Row>)
      ensures r == SingleLatest(rows)
    {
      var keys := set k | k in rows && rows[k].isLatest;
      assert keys == LatestKeys(rows);
      if |keys| == 1 {
        var k :| k in keys;
        assert keys == {k} by {
          assert |keys - {k}| == 0;
        }
        r := Some(rows[k]);
      } else {
        r := None;
      }
    }

    /** `.eq('draw_date', date).maybeSingle()`. */
    method FindByDate(date: string) returns (r: Option<Row>)
      requires Valid()
      ensures r.Some? <==> date in rows
      ensures r.Some? ==> r.value == rows[date] && r.value.drawDate == date
    {
      if date in rows {
        r := Some(rows[date]);
      } else {
        r := None;
      }
    }

    /**
     * `.eq('is_latest', false).order('draw_date', { ascending: false }).limit(limit)`:
     * the `limit` newest rows that are not flagged latest, newest first.
     */
    method SelectPrevious(limit: nat) returns (r: seq<Row>)
      requires Valid()
      ensures |r| == if |NonLatestKeys(rows)| < limit then |NonLatestKeys(rows)| else limit
      ensures forall i :: 0 <= i < |r| ==> r[i].drawDate in NonLatestKeys(rows) && rows[r[i].drawDate] == r[i]
      ensures NewestFirst(r)
      ensures forall k :: k in NonLatestKeys(rows) && !HasDate(r, k) ==>
                forall i :: 0 <= i < |r| ==> StrBefore(k, r[i].drawDate)
      ensures |NonLatestKeys(rows)| <= limit ==> forall k :: k in NonLatestKeys(rows) ==> HasDate(r, k)
    {
      var candidates := set k | k in rows && !rows[k].isLatest;
      assert candidates == NonLatestKeys(rows);
      var remaining := candidates;
      r := [];
      while |r| < limit && remaining != {}
        invariant remaining <= candidates
        invariant |r| <= limit && |r| + |remaining| == |candidates|
        invariant forall i :: 0 <= i < |r| ==> r[i].drawDate in candidates - remaining && rows[r[i].drawDate] == r[i]
        invariant forall k :: k in candidates - remaining ==> HasDate(r, k)
        invariant forall k, i :: k in remaining && 0 <= i < |r| ==> StrBefore(k, r[i].drawDate)
        invariant NewestFirst(r)
        decreases remaining
      {
        var newest := NewestKey(remaining);
        var row := rows[newest];
        AppendKeepsDates(r, row);
        AppendOlder(r, row);
        r := r + [row];
        remaining := remaining - {newest};
      }
    }

    /** Clears the latest flag on every row. */
    method ClearLatest()
      requires Valid()
      modifies this
      ensures Valid() && rows == Cleared(old(rows))
    {
      rows := map k | k in rows :: rows[k].(isLatest := false);
    }

    /** Inserts the row, or replaces the one with the same draw date. */
    method Upsert(row: Row)
      requires Valid()
      modifies this
      ensures Valid() && rows == Upserted(old(rows), row)
    {
      rows := rows[row.drawDate := row];
    }
  }
}
