/** db.py: the `processed_events` table of pipeline.db, an append-only
    sequence of rows with AUTOINCREMENT ids that gates the summary
    pipeline. */
module Ledger {
  datatype Row = Row(id: nat, eventId: int, jobId: int, personId: int)

  /** `SELECT 1 ... WHERE event_id = ?` finds a row, scanning from the
      first. */
  predicate HasEvent(rows: seq<Row>, e: int)
  {
    rows != [] && (rows[0].eventId == e || HasEvent(rows[1..], e))
  }

  lemma {:induction false} HasEventIff(rows: seq<Row>, e: int)
    ensures HasEvent(rows, e) <==> exists i :: 0 <= i < |rows| && rows[i].eventId == e
  {
    if rows != [] {
      HasEventIff(rows[1..], e);
      if HasEvent(rows[1..], e) {
        var i :| 0 <= i < |rows[1..]| && rows[1..][i].eventId == e;
        assert rows[i + 1].eventId == e;
      }
      if rows[0].eventId != e && exists i :: 0 <= i < |rows| && rows[i].eventId == e {
        var i :| 0 <= i < |rows| && rows[i].eventId == e;
        assert rows[1..][i - 1].eventId == e;
      }
    }
  }

  /** Appending a row adds exactly its event to those found. */
  lemma {:induction false} HasEventAppend(rows: seq<Row>, r: Row, e: int)
    ensures HasEvent(rows + [r], e) <==> HasEvent(rows, e) || r.eventId == e
  {
    if rows != [] {
      assert (rows + [r])[1..] == rows[1..] + [r];
      HasEventAppend(rows[1..], r, e);
    } else {
      assert [r][1..] == [];
    }
  }

  /** AUTOINCREMENT: ids strictly increase down the table and stay below the
      next one handed out. */
  predicate IdsIncreasing(rows: seq<Row>, nextId: nat)
  {
    && (forall i, j :: 0 <= i < j < |rows| ==> rows[i].id < rows[j].id)
    && (forall i :: 0 <= i < |rows| ==> rows[i].id < nextId)
  }

  /** No event id occurs in two rows. */
  predicate DistinctEvents(rows: seq<Row>)
  {
    forall i, j :: 0 <= i < j < |rows| ==> rows[i].eventId != rows[j].eventId
  }

  class ProcessedEvents {
    var created: bool   // CREATE TABLE has run
    var rows: seq<Row>
    var nextId: nat

    predicate Valid()
      reads this
    {
      nextId >= 1 && IdsIncreasing(rows, nextId) && (!created ==> rows == [])
    }

    /** A database file without the table. */
    constructor ()
      ensures Valid() && !created && rows == [] && nextId == 1
    {
      created := false;
      rows := [];
      nextId := 1;
    }

    /** `init_db`: CREATE TABLE IF NOT EXISTS, so existing rows stay and a
        second call changes nothing. */
    method InitDb()
      requires Valid()
      modifies this
      ensures Valid() && created && rows == old(rows) && nextId == old(nextId)
    {
      created := true;
    }

    /** `is_event_processed`. */
    function IsEventProcessed(e: int): (r: bool)
      reads this
      requires created
      ensures r <==> exists i :: 0 <= i < |rows| && rows[i].eventId == e
    {
      HasEventIff(rows, e);
      HasEvent(rows, e)
    }

    /** `mark_event_processed`: one row with the next id, nothing else. */
    method MarkEventProcessed(e: int, jobId: int, personId: int)
      requires Valid() && created
      modifies this
      ensures Valid() && created
      ensures rows == old(rows) + [Row(old(nextId), e, jobId, personId)] && nextId == old(nextId) + 1
      ensures IsEventProcessed(e)
      ensures forall e' :: e' != e ==> IsEventProcessed(e') == old(IsEventProcessed(e'))
    {
      ghost var before := rows;
      rows := rows + [Row(nextId, e, jobId, personId)];
      nextId := nextId + 1;
      forall e' | true
        ensures HasEvent(rows, e') <==> HasEvent(before, e') || e' == e
      {
        HasEventAppend(before, Row(old(nextId), e, jobId, personId), e');
      }
      HasEventIff(rows, e);
      forall e' | e' != e
        ensures IsEventProcessed(e') == old(IsEventProcessed(e'))
      {
        HasEventIff(rows, e');
        HasEventIff(before, e');
      }
    }
  }

  /** Once marked, an event stays processed through any later marks. */
  lemma {:induction false} MarkedStaysMarked(rows: seq<Row>, later: seq<Row>, e: int)
    requires HasEvent(rows, e)
    ensures HasEvent(rows + later, e)
    decreases |later|
  {
    if later != [] {
      var init := later[..|later| - 1];
      MarkedStaysMarked(rows, init, e);
      HasEventAppend(rows + init, later[|later| - 1], e);
      assert rows + init + [later[|later| - 1]] == rows + later;
    } else {
      assert rows + later == rows;
    }
  }
}
