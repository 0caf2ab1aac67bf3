/**
 * After-action review: keyset pagination over position_history. Times are
 * integer microseconds, the resolution of the timestamptz(6) column.
 */
module Aar {
  import opened Common
  import opened Lists
  import opened Positions

  datatype PositionRow = PositionRow(id: Id, operatorId: Id, eventId: Id, reading: Reading, recordedAt: int)

  datatype PositionView = PositionView(id: Id, operatorId: Id, callsign: string, reading: Reading, recordedAt: int)

  datatype Query = Query(operatorId: Option<Id>, fromAt: Option<int>, toAt: Option<int>, limit: nat)

  datatype Page = Page(rows: seq<PositionView>, nextCursor: Option<int>)

  datatype Tables = Tables(events: set<Id>, callsigns: map<Id, string>, history: seq<PositionRow>)

  datatype Error = EventNotFound

  /** `Date.toISOString`: a Date keeps milliseconds and drops the rest. */
  function ToIso(us: int): (iso: int)
    ensures iso <= us < iso + 1000 && iso % 1000 == 0
  {
    us - us % 1000
  }

  /** The WHERE clauses that do not depend on the cursor, and the inner join on operators. */
  predicate Matches(t: Tables, eventId: Id, q: Query, r: PositionRow) {
    && r.eventId == eventId
    && r.operatorId in t.callsigns
    && (q.operatorId.Some? ==> r.operatorId == q.operatorId.value)
    && (q.fromAt.Some? ==> r.recordedAt >= q.fromAt.value)
    && (q.toAt.Some? ==> r.recordedAt <= q.toAt.value)
  }

  predicate BeyondCursor(cursor: Option<int>, r: PositionRow) {
    cursor.Some? ==> r.recordedAt > cursor.value
  }

  function RecordedAt(): PositionRow -> int {
    (r: PositionRow) => r.recordedAt
  }

  /** WHERE ... ORDER BY recorded_at ASC, before LIMIT. */
  function Ahead(t: Tables, eventId: Id, q: Query, cursor: Option<int>): seq<PositionRow> {
    SortBy(Filter(t.history, r => Matches(t, eventId, q, r) && BeyondCursor(cursor, r)), RecordedAt())
  }

  function View(t: Tables, r: PositionRow): PositionView {
    PositionView(r.id, r.operatorId, OrElse(Lookup(t.callsigns, r.operatorId), ""), r.reading, ToIso(r.recordedAt))
  }

  function Views(t: Tables, rows: seq<PositionRow>): seq<PositionView> {
    Map(rows, r => View(t, r))
  }

  function GetPositions(t: Tables, eventId: Id, q: Query, cursor: Option<int>): Result<Page, Error>
    requires q.limit >= 1
  {
    if eventId !in t.events then Err(EventNotFound)
    else
      var all := Ahead(t, eventId, q, cursor);
      var rows := if |all| > q.limit + 1 then all[..q.limit + 1] else all;
      var hasMore := |rows| > q.limit;
      var page := if hasMore then rows[..q.limit] else rows;
      var nextCursor := if hasMore then Some(ToIso(page[|page| - 1].recordedAt)) else None;
      Ok(Page(Views(t, page), nextCursor))
  }
}
