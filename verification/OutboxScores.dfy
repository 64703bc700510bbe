/** Totals over the outbox table that a run's summary is measured against. */
module OutboxScores {
  import opened Scopes
  import opened Outbox

  /** How many rows are published, how many are dead letters, and all attempts and recoveries. */
  datatype Score = Score(published: int, deadLettered: int, attempts: int, recoveries: int)
  {
    function Plus(s: Score): Score {
      Score(published + s.published, deadLettered + s.deadLettered, attempts + s.attempts,
            recoveries + s.recoveries)
    }
  }

  const ZERO := Score(0, 0, 0, 0)

  function ScoreOf(row: Row): Score {
    Score(Bit(row.status == Published), Bit(row.status == DeadLetter), row.attempts, row.recoveries)
  }

  ghost function Pick(ids: set<EventId>): (e: EventId)
    requires ids != {}
    ensures e in ids
  {
    var e :| e in ids;
    e
  }

  ghost function Sum(rows: map<EventId, Row>, ids: set<EventId>): Score
    requires ids <= rows.Keys
  {
    if ids == {} then ZERO else Sum(rows, ids - {Pick(ids)}).Plus(ScoreOf(rows[Pick(ids)]))
  }

  ghost function Total(rows: map<EventId, Row>): Score {
    Sum(rows, rows.Keys)
  }

  /** A sum may be taken apart at any row. */
  lemma {:induction false} SumWithout(rows: map<EventId, Row>, ids: set<EventId>, e: EventId)
    requires e in ids && ids <= rows.Keys
    ensures Sum(rows, ids) == Sum(rows, ids - {e}).Plus(ScoreOf(rows[e]))
    decreases ids
  {
    var d := Pick(ids);
    if d != e {
      SumWithout(rows, ids - {d}, e);
      SumWithout(rows, ids - {e}, d);
      assert ids - {d} - {e} == ids - {e} - {d};
    }
  }

  lemma {:induction false} SumSame(rows: map<EventId, Row>, others: map<EventId, Row>, ids: set<EventId>)
    requires ids <= rows.Keys && ids <= others.Keys && forall e :: e in ids ==> rows[e] == others[e]
    ensures Sum(rows, ids) == Sum(others, ids)
    decreases ids
  {
    if ids != {} {
      SumSame(rows, others, ids - {Pick(ids)});
    }
  }

  lemma TotalUpdate(rows: map<EventId, Row>, e: EventId, row: Row, gain: Score)
    requires e in rows && ScoreOf(row) == ScoreOf(rows[e]).Plus(gain)
    ensures Total(rows[e := row]) == Total(rows).Plus(gain)
  {
    var after := rows[e := row];
    SumWithout(rows, rows.Keys, e);
    SumWithout(after, rows.Keys, e);
    SumSame(rows, after, rows.Keys - {e});
    assert after.Keys == rows.Keys;
  }
}
