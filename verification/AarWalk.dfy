/** Following nextCursor from page to page over a table that does not change. */
module AarWalk {
  import opened Common
  import opened Lists
  import opened Positions
  import opened Aar

  /** The index just past the rows tied with row n - 1. */
  function EndOfTie(rows: seq<PositionRow>, n: nat): (m: nat)
    requires 1 <= n <= |rows|
    ensures n <= m <= |rows|
    ensures forall i :: n <= i < m ==> rows[i].recordedAt == rows[n - 1].recordedAt
    ensures m < |rows| ==> rows[m].recordedAt != rows[n - 1].recordedAt
    decreases |rows| - n
  {
    if n < |rows| && rows[n].recordedAt == rows[n - 1].recordedAt then EndOfTie(rows, n + 1) else n
  }

  lemma {:induction false} FilterOfSuffix<T(!new)>(s: seq<T>, p: T -> bool, m: nat)
    requires m <= |s|
    requires forall i :: 0 <= i < |s| ==> (p(s[i]) <==> i >= m)
    ensures Filter(s, p) == s[m..]
    decreases |s|
  {
    if s != [] {
      FilterOfSuffix(s[1..], p, if m == 0 then 0 else m - 1);
      if m == 0 {
        assert s == [s[0]] + s[1..];
      }
    }
  }

  lemma AheadIsSorted(t: Tables, eventId: Id, q: Query, cursor: Option<int>)
    ensures SortedBy(Ahead(t, eventId, q, cursor), RecordedAt())
    ensures forall r :: r in Ahead(t, eventId, q, cursor) ==>
              r in t.history && Matches(t, eventId, q, r) && BeyondCursor(cursor, r)
  {
    var rows := Filter(t.history, r => Matches(t, eventId, q, r) && BeyondCursor(cursor, r));
    SortBySorts(rows, RecordedAt());
    forall r | r in Ahead(t, eventId, q, cursor) ensures r in rows {
      assert r in multiset(Ahead(t, eventId, q, cursor));
    }
  }

  /** A strict cursor at the time of row n - 1 skips it and all rows tied with it, and nothing else. */
  lemma CursorSkipsTheTie(t: Tables, eventId: Id, q: Query, cursor: Option<int>, n: nat)
    requires 1 <= n <= |Ahead(t, eventId, q, cursor)|
    ensures var rows := Ahead(t, eventId, q, cursor);
            Ahead(t, eventId, q, Some(rows[n - 1].recordedAt)) == rows[EndOfTie(rows, n)..]
  {
    var rows := Ahead(t, eventId, q, cursor);
    var c := rows[n - 1].recordedAt;
    var before := (r: PositionRow) => Matches(t, eventId, q, r) && BeyondCursor(cursor, r);
    var after := (r: PositionRow) => Matches(t, eventId, q, r) && BeyondCursor(Some(c), r);
    var later := (r: PositionRow) => r.recordedAt > c;
    AheadIsSorted(t, eventId, q, cursor);
    assert rows[n - 1] in rows;
    FilterTwice(t.history, before, later, after);
    SortThenFilter(Filter(t.history, before), RecordedAt(), c, later);
    var m := EndOfTie(rows, n);
    forall i | 0 <= i < |rows| ensures later(rows[i]) <==> i >= m {
      if i < n {
        assert RecordedAt()(rows[i]) <= RecordedAt()(rows[n - 1]);
      } else if i >= m {
        assert RecordedAt()(rows[n - 1]) <= RecordedAt()(rows[m]) <= RecordedAt()(rows[i]);
      }
    }
    FilterOfSuffix(rows, later, m);
  }

  /**
   * The positions the worker stores come from JS Dates, so they are whole
   * milliseconds.
   */
  predicate WholeMillis(t: Tables) {
    forall r :: r in t.history ==> r.recordedAt % 1000 == 0
  }

  lemma TakeTwice<T>(s: seq<T>, n: nat)
    requires n + 1 <= |s|
    ensures s[..n + 1][..n] == s[..n]
  {
  }

  /**
   * Fetching limit + 1 rows and cutting them back gives the first `limit` rows,
   * and a cursor exactly when rows are left.
   */
  lemma CutIsPrefix(t: Tables, eventId: Id, q: Query, cursor: Option<int>)
    requires eventId in t.events && q.limit >= 1
    ensures var rows := Ahead(t, eventId, q, cursor);
            GetPositions(t, eventId, q, cursor) ==
            Ok(if |rows| > q.limit then Page(Views(t, rows[..q.limit]), Some(ToIso(rows[q.limit - 1].recordedAt)))
               else Page(Views(t, rows), None))
  {
    var rows := Ahead(t, eventId, q, cursor);
    if |rows| > q.limit + 1 {
      TakeTwice(rows, q.limit);
    }
  }

  /**
   * What a query asks for: each row of the event, the operator and the times
   * (both ends included), of a known operator and after the cursor, as often as
   * the table has it, and no other row; by ascending time.
   */
  ghost predicate IsAnswer(t: Tables, eventId: Id, q: Query, cursor: Option<int>, rows: seq<PositionRow>) {
    && (forall r: PositionRow :: multiset(rows)[r] ==
          if r.eventId == eventId && r.operatorId in t.callsigns &&
             (q.operatorId.None? || q.operatorId.value == r.operatorId) &&
             (q.fromAt.None? || q.fromAt.value <= r.recordedAt) && (q.toAt.None? || r.recordedAt <= q.toAt.value) &&
             (cursor.None? || cursor.value < r.recordedAt)
          then multiset(t.history)[r] else 0)
    && (forall i, j :: 0 <= i < j < |rows| ==> rows[i].recordedAt <= rows[j].recordedAt)
  }

  /** Each view shows its own row, the name of its operator, and its time without what is finer than milliseconds. */
  predicate Show(t: Tables, rows: seq<PositionRow>, views: seq<PositionView>) {
    && |views| == |rows|
    && forall i :: 0 <= i < |rows| ==>
      && views[i].id == rows[i].id
      && views[i].operatorId == rows[i].operatorId
      && rows[i].operatorId in t.callsigns && views[i].callsign == t.callsigns[rows[i].operatorId]
      && views[i].reading == rows[i].reading
      && views[i].recordedAt == rows[i].recordedAt - rows[i].recordedAt % 1000
  }

  lemma AheadByTime(t: Tables, eventId: Id, q: Query, cursor: Option<int>, i: nat, j: nat)
    requires i < j < |Ahead(t, eventId, q, cursor)|
    ensures Ahead(t, eventId, q, cursor)[i].recordedAt <= Ahead(t, eventId, q, cursor)[j].recordedAt
  {
    AheadIsSorted(t, eventId, q, cursor);
    var rows := Ahead(t, eventId, q, cursor);
    assert RecordedAt()(rows[i]) <= RecordedAt()(rows[j]);
  }

  lemma AheadCounts(t: Tables, eventId: Id, q: Query, cursor: Option<int>, r: PositionRow)
    ensures multiset(Ahead(t, eventId, q, cursor))[r] ==
            if Matches(t, eventId, q, r) && BeyondCursor(cursor, r) then multiset(t.history)[r] else 0
  {
    var p := (r: PositionRow) => Matches(t, eventId, q, r) && BeyondCursor(cursor, r);
    SortBySorts(Filter(t.history, p), RecordedAt());
    FilterCounts(t.history, p, r);
  }

  lemma AheadIsAnswer(t: Tables, eventId: Id, q: Query, cursor: Option<int>)
    ensures IsAnswer(t, eventId, q, cursor, Ahead(t, eventId, q, cursor))
  {
    var rows := Ahead(t, eventId, q, cursor);
    forall r: PositionRow
      ensures multiset(rows)[r] ==
              if Matches(t, eventId, q, r) && BeyondCursor(cursor, r) then multiset(t.history)[r] else 0
    {
      AheadCounts(t, eventId, q, cursor, r);
    }
    forall i, j | 0 <= i < j < |rows| ensures rows[i].recordedAt <= rows[j].recordedAt {
      AheadByTime(t, eventId, q, cursor, i, j);
    }
  }

  /** The page and the cursor that go with a list of rows. */
  predicate IsPageOf(t: Tables, limit: nat, rows: seq<PositionRow>, page: Page)
    requires limit >= 1
  {
    if |rows| > limit then
      && Show(t, rows[..limit], page.rows)
      && page.nextCursor == Some(rows[limit - 1].recordedAt - rows[limit - 1].recordedAt % 1000)
    else Show(t, rows, page.rows) && page.nextCursor == None
  }

  /** The page cut from a list whose rows are all of known operators. */
  lemma CutIsPageOf(t: Tables, limit: nat, rows: seq<PositionRow>)
    requires limit >= 1 && forall i :: 0 <= i < |rows| ==> rows[i].operatorId in t.callsigns
    ensures IsPageOf(t, limit, rows,
                     if |rows| > limit then Page(Views(t, rows[..limit]), Some(ToIso(rows[limit - 1].recordedAt)))
                     else Page(Views(t, rows), None))
  {
  }

  lemma AheadAreKnown(t: Tables, eventId: Id, q: Query, cursor: Option<int>)
    ensures var rows := Ahead(t, eventId, q, cursor);
            forall i :: 0 <= i < |rows| ==> rows[i].operatorId in t.callsigns
  {
    AheadIsSorted(t, eventId, q, cursor);
    var rows := Ahead(t, eventId, q, cursor);
    forall i | 0 <= i < |rows| ensures rows[i].operatorId in t.callsigns {
      assert rows[i] in rows;
    }
  }

  lemma PageShowsAhead(t: Tables, eventId: Id, q: Query, cursor: Option<int>)
    requires q.limit >= 1
    ensures var answer := GetPositions(t, eventId, q, cursor);
            if eventId in t.events then answer.Ok? && IsPageOf(t, q.limit, Ahead(t, eventId, q, cursor), answer.value)
            else answer == Err(EventNotFound)
  {
    if eventId in t.events {
      CutIsPrefix(t, eventId, q, cursor);
      AheadAreKnown(t, eventId, q, cursor);
      CutIsPageOf(t, q.limit, Ahead(t, eventId, q, cursor));
    }
  }

  /**
   * A page is the first `limit` rows of what was asked for, with a cursor at
   * the millisecond of its last row exactly when rows are left.
   */
  lemma PageIsPrefix(t: Tables, eventId: Id, q: Query, cursor: Option<int>) returns (rows: seq<PositionRow>)
    requires q.limit >= 1
    ensures IsAnswer(t, eventId, q, cursor, rows)
    ensures var answer := GetPositions(t, eventId, q, cursor);
            if eventId in t.events then answer.Ok? && IsPageOf(t, q.limit, rows, answer.value)
            else answer == Err(EventNotFound)
  {
    rows := Ahead(t, eventId, q, cursor);
    AheadIsAnswer(t, eventId, q, cursor);
    PageShowsAhead(t, eventId, q, cursor);
  }

  lemma NextCursorIsExact(t: Tables, eventId: Id, q: Query, cursor: Option<int>)
    requires WholeMillis(t) && eventId in t.events && q.limit >= 1
    ensures GetPositions(t, eventId, q, cursor).Ok?
    ensures var rows := Ahead(t, eventId, q, cursor); var page := GetPositions(t, eventId, q, cursor).value;
            if |rows| > q.limit then
              && page == Page(Views(t, rows[..q.limit]), Some(rows[q.limit - 1].recordedAt))
              && Ahead(t, eventId, q, page.nextCursor) == rows[EndOfTie(rows, q.limit)..]
            else page == Page(Views(t, rows), None)
  {
    var rows := Ahead(t, eventId, q, cursor);
    CutIsPrefix(t, eventId, q, cursor);
    if |rows| > q.limit {
      AheadIsSorted(t, eventId, q, cursor);
      CursorSkipsTheTie(t, eventId, q, cursor, q.limit);
      var last := rows[q.limit - 1];
      assert last in rows;
      assert ToIso(last.recordedAt) == last.recordedAt;
    }
  }

  /** All pages from a cursor on. It ends because the rows ahead strictly decrease. */
  function Walk(t: Tables, eventId: Id, q: Query, cursor: Option<int>): seq<Page>
    requires WholeMillis(t) && eventId in t.events && q.limit >= 1
    decreases |Ahead(t, eventId, q, cursor)|
  {
    var page := GetPositions(t, eventId, q, cursor).value;
    NextCursorIsExact(t, eventId, q, cursor);
    [page] + if page.nextCursor.None? then [] else Walk(t, eventId, q, page.nextCursor)
  }

  /**
   * `pages` cover `rows` in order: each page but the last holds `limit` rows,
   * the rows tied with its last row and sorted after it are missing, and the
   * next page starts right behind them. The last page holds all that is left.
   */
  predicate Cover(t: Tables, limit: nat, rows: seq<PositionRow>, pages: seq<Page>)
    requires limit >= 1
    decreases |pages|
  {
    if |pages| <= 1 then |pages| == 1 && |rows| <= limit && pages[0] == Page(Views(t, rows), None)
    else
      && limit < |rows|
      && pages[0] == Page(Views(t, rows[..limit]), Some(rows[limit - 1].recordedAt))
      && Cover(t, limit, rows[EndOfTie(rows, limit)..], pages[1..])
  }

  /** The pages a client collects, exactly, for every table, filter and limit. */
  lemma {:induction false} WalkCovers(t: Tables, eventId: Id, q: Query, cursor: Option<int>)
    requires WholeMillis(t) && eventId in t.events && q.limit >= 1
    ensures Cover(t, q.limit, Ahead(t, eventId, q, cursor), Walk(t, eventId, q, cursor))
    decreases |Ahead(t, eventId, q, cursor)|
  {
    NextCursorIsExact(t, eventId, q, cursor);
    var page := GetPositions(t, eventId, q, cursor).value;
    if page.nextCursor.Some? {
      WalkCovers(t, eventId, q, page.nextCursor);
      var more := Walk(t, eventId, q, page.nextCursor);
      assert Walk(t, eventId, q, cursor)[1..] == more && more != [];
    }
  }

  function Collected(pages: seq<Page>): seq<PositionView> {
    if pages == [] then [] else pages[0].rows + Collected(pages[1..])
  }

  predicate DistinctTimes(rows: seq<PositionRow>) {
    forall i, j :: 0 <= i < j < |rows| ==> rows[i].recordedAt != rows[j].recordedAt
  }

  /** Cutting the list every `limit` rows never cuts between two tied rows. */
  predicate NoTieIsCut(limit: nat, rows: seq<PositionRow>)
    requires limit >= 1
    decreases |rows|
  {
    |rows| <= limit || (rows[limit - 1].recordedAt != rows[limit].recordedAt && NoTieIsCut(limit, rows[limit..]))
  }

  lemma {:induction false} DistinctTimesAreNotCut(limit: nat, rows: seq<PositionRow>)
    requires limit >= 1 && DistinctTimes(rows)
    ensures NoTieIsCut(limit, rows)
    decreases |rows|
  {
    if |rows| > limit {
      DistinctTimesAreNotCut(limit, rows[limit..]);
    }
  }

  lemma ViewsSplit(t: Tables, rows: seq<PositionRow>, n: nat)
    requires n <= |rows|
    ensures Views(t, rows) == Views(t, rows[..n]) + Views(t, rows[n..])
  {
  }

  lemma AppendSame<T>(a: seq<T>, b: seq<T>, c: seq<T>)
    ensures a + b == a + c <==> b == c
  {
    assert (a + b)[|a|..] == b && (a + c)[|a|..] == c;
  }

  lemma CutUnfolds(limit: nat, rows: seq<PositionRow>)
    requires 1 <= limit < |rows|
    ensures NoTieIsCut(limit, rows) <==> EndOfTie(rows, limit) == limit && NoTieIsCut(limit, rows[limit..])
  {
  }

  lemma ViewsLength(t: Tables, rows: seq<PositionRow>)
    ensures |Views(t, rows)| == |rows|
  {
  }

  /** One page in front of what the pages behind it collect. */
  lemma OneMorePage(t: Tables, limit: nat, rows: seq<PositionRow>, m: nat, rest: seq<PositionView>)
    requires 1 <= limit < |rows| && m == EndOfTie(rows, limit)
    requires |rest| <= |rows[m..]| && (rest == Views(t, rows[m..]) <==> NoTieIsCut(limit, rows[m..]))
    ensures |Views(t, rows[..limit]) + rest| <= |rows|
    ensures Views(t, rows[..limit]) + rest == Views(t, rows) <==> NoTieIsCut(limit, rows)
  {
    ViewsSplit(t, rows, limit);
    ViewsLength(t, rows);
    ViewsLength(t, rows[..limit]);
    CutUnfolds(limit, rows);
    if m == limit {
      AppendSame(Views(t, rows[..limit]), rest, Views(t, rows[limit..]));
    }
  }

  lemma {:induction false} CompleteUnlessCut(t: Tables, limit: nat, rows: seq<PositionRow>, pages: seq<Page>)
    requires limit >= 1 && Cover(t, limit, rows, pages)
    ensures |Collected(pages)| <= |rows|
    ensures Collected(pages) == Views(t, rows) <==> NoTieIsCut(limit, rows)
    decreases |pages|
  {
    if |pages| == 1 {
      assert pages[1..] == [];
      assert Collected(pages) == pages[0].rows + [] == Views(t, rows);
    } else {
      var m := EndOfTie(rows, limit);
      CompleteUnlessCut(t, limit, rows[m..], pages[1..]);
      OneMorePage(t, limit, rows, m, Collected(pages[1..]));
    }
  }

  /**
   * The pages concatenate to the filtered, sorted list exactly when no page
   * ends between two rows of the same time; distinct times are enough.
   */
  lemma PagesAreTheListUnlessCut(t: Tables, eventId: Id, q: Query)
    requires WholeMillis(t) && eventId in t.events && q.limit >= 1
    ensures var rows := Ahead(t, eventId, q, None);
            && (Collected(Walk(t, eventId, q, None)) == Views(t, rows) <==> NoTieIsCut(q.limit, rows))
            && (DistinctTimes(rows) ==> NoTieIsCut(q.limit, rows))
  {
    var rows := Ahead(t, eventId, q, None);
    WalkCovers(t, eventId, q, None);
    CompleteUnlessCut(t, q.limit, rows, Walk(t, eventId, q, None));
    if DistinctTimes(rows) {
      DistinctTimesAreNotCut(q.limit, rows);
    }
  }

  lemma OnlyViewsShow(t: Tables, eventId: Id, q: Query, views: seq<PositionView>)
    ensures var rows := Ahead(t, eventId, q, None); Show(t, rows, views) <==> views == Views(t, rows)
  {
    var rows := Ahead(t, eventId, q, None);
    AheadAreKnown(t, eventId, q, None);
    if Show(t, rows, views) {
      assert forall i :: 0 <= i < |rows| ==> views[i] == Views(t, rows)[i];
    }
  }

  lemma WalkShowsAhead(t: Tables, eventId: Id, q: Query)
    requires WholeMillis(t) && eventId in t.events && q.limit >= 1
    ensures var rows := Ahead(t, eventId, q, None);
            Show(t, rows, Collected(Walk(t, eventId, q, None))) <==> NoTieIsCut(q.limit, rows)
  {
    PagesAreTheListUnlessCut(t, eventId, q);
    OnlyViewsShow(t, eventId, q, Collected(Walk(t, eventId, q, None)));
  }

  /**
   * What the client of a whole walk holds, exactly if no tie is cut: everything that
   * was asked for and nothing else, by time, each row with its own columns.
   */
  lemma WholeWalkIsTheAnswer(t: Tables, eventId: Id, q: Query) returns (rows: seq<PositionRow>)
    requires WholeMillis(t) && eventId in t.events && q.limit >= 1
    ensures IsAnswer(t, eventId, q, None, rows)
    ensures Show(t, rows, Collected(Walk(t, eventId, q, None))) <==> NoTieIsCut(q.limit, rows)
  {
    rows := Ahead(t, eventId, q, None);
    AheadIsAnswer(t, eventId, q, None);
    WalkShowsAhead(t, eventId, q);
  }

  /** A tie can cost any number of rows: when all rows have one time, only the first page is ever seen. */
  lemma TieDropsAllTheRest(t: Tables, eventId: Id, q: Query)
    requires WholeMillis(t) && eventId in t.events && q.limit >= 1
    requires var rows := Ahead(t, eventId, q, None);
             |rows| > q.limit && forall i, j :: 0 <= i < j < |rows| ==> rows[i].recordedAt == rows[j].recordedAt
    ensures Collected(Walk(t, eventId, q, None)) == Views(t, Ahead(t, eventId, q, None)[..q.limit])
  {
    var rows := Ahead(t, eventId, q, None);
    assert forall i :: q.limit <= i < |rows| ==> rows[q.limit - 1].recordedAt == rows[i].recordedAt;
    NextCursorIsExact(t, eventId, q, None);
    var page := GetPositions(t, eventId, q, None).value;
    assert EndOfTie(rows, q.limit) == |rows|;
    NothingAhead(t, eventId, q, page.nextCursor);
    CollectedFirst(page, Walk(t, eventId, q, page.nextCursor));
  }

  lemma CollectedFirst(page: Page, rest: seq<Page>)
    ensures Collected([page] + rest) == page.rows + Collected(rest)
  {
    assert ([page] + rest)[1..] == rest;
  }

  lemma NothingAhead(t: Tables, eventId: Id, q: Query, cursor: Option<int>)
    requires WholeMillis(t) && eventId in t.events && q.limit >= 1 && Ahead(t, eventId, q, cursor) == []
    ensures Collected(Walk(t, eventId, q, cursor)) == []
  {
    NextCursorIsExact(t, eventId, q, cursor);
    var page := GetPositions(t, eventId, q, cursor).value;
    assert Walk(t, eventId, q, cursor) == [page] + [];
    CollectedFirst(page, []);
  }

  predicate DistinctIds(rows: seq<PositionRow>) {
    forall i, j :: 0 <= i < j < |rows| ==> rows[i].id != rows[j].id
  }

  predicate NoRowTwice(views: seq<PositionView>) {
    forall i, j :: 0 <= i < j < |views| ==> views[i].id != views[j].id
  }

  predicate ShownFrom(t: Tables, rows: seq<PositionRow>, m: nat, v: PositionView) {
    exists i :: m <= i < |rows| && v == View(t, rows[i])
  }

  lemma ShownInSuffix(t: Tables, rows: seq<PositionRow>, m: nat, v: PositionView)
    requires m <= |rows| && ShownFrom(t, rows[m..], 0, v)
    ensures ShownFrom(t, rows, m, v) && ShownFrom(t, rows, 0, v)
  {
    var i :| 0 <= i < |rows[m..]| && v == View(t, rows[m..][i]);
    assert rows[m..][i] == rows[m + i];
  }

  lemma JoinedRepeatsNothing(first: seq<PositionView>, rest: seq<PositionView>)
    requires NoRowTwice(first) && NoRowTwice(rest)
    requires forall i, v :: 0 <= i < |first| && v in rest ==> first[i].id != v.id
    ensures NoRowTwice(first + rest)
  {
    forall i, j | 0 <= i < |first| <= j < |first + rest| ensures (first + rest)[i].id != (first + rest)[j].id {
      assert (first + rest)[j] in rest;
    }
  }

  lemma {:induction false} CoverRepeatsNothing(t: Tables, limit: nat, rows: seq<PositionRow>, pages: seq<Page>)
    requires limit >= 1 && Cover(t, limit, rows, pages) && DistinctIds(rows)
    ensures NoRowTwice(Collected(pages))
    ensures forall v :: v in Collected(pages) ==> ShownFrom(t, rows, 0, v)
    decreases |pages|
  {
    var first, rest := pages[0].rows, Collected(pages[1..]);
    assert forall i :: 0 <= i < |first| ==> first[i] == View(t, rows[i]);
    if |pages| == 1 {
      assert pages[1..] == [];
      assert Collected(pages) == Views(t, rows);
    } else {
      var m := EndOfTie(rows, limit);
      CoverRepeatsNothing(t, limit, rows[m..], pages[1..]);
      forall v | v in rest ensures ShownFrom(t, rows, m, v) && ShownFrom(t, rows, 0, v) {
        ShownInSuffix(t, rows, m, v);
      }
      JoinedRepeatsNothing(first, rest);
    }
  }

  /** No row comes twice, ties or not. */
  lemma {:induction false} WalkRepeatsNothing(t: Tables, eventId: Id, q: Query, cursor: Option<int>)
    requires WholeMillis(t) && eventId in t.events && q.limit >= 1
    requires DistinctIds(Ahead(t, eventId, q, cursor))
    ensures NoRowTwice(Collected(Walk(t, eventId, q, cursor)))
  {
    WalkCovers(t, eventId, q, cursor);
    CoverRepeatsNothing(t, q.limit, Ahead(t, eventId, q, cursor), Walk(t, eventId, q, cursor));
  }

  lemma MillisecondOf(us: int, c: int)
    requires c % 1000 == 0 && us > c
    ensures ToIso(us) >= c && (ToIso(us) == c <==> us < c + 1000)
  {
  }

  lemma RowsAreBeyond(t: Tables, eventId: Id, q: Query, c: int, i: nat)
    requires i < |Ahead(t, eventId, q, Some(c))|
    ensures Ahead(t, eventId, q, Some(c))[i].recordedAt > c
  {
    AheadIsSorted(t, eventId, q, Some(c));
    var r := Ahead(t, eventId, q, Some(c))[i];
    assert r in Ahead(t, eventId, q, Some(c));
  }

  /**
   * Without any assumption on the times of the table: a page after a cursor of
   * whole milliseconds, with rows left over, names that same cursor as the next
   * one exactly when its last row lies within the cursor's millisecond, and
   * moves on otherwise.
   */
  lemma CursorStuckExactlyWhen(t: Tables, eventId: Id, q: Query, c: int)
    requires eventId in t.events && q.limit >= 1 && c % 1000 == 0
    requires |Ahead(t, eventId, q, Some(c))| > q.limit
    ensures var last := Ahead(t, eventId, q, Some(c))[q.limit - 1];
        var next := GetPositions(t, eventId, q, Some(c)).value.nextCursor;
            next.Some? && next.value >= c && next.value % 1000 == 0 && (next == Some(c) <==> last.recordedAt < c + 1000)
  {
    CutIsPrefix(t, eventId, q, Some(c));
    var last := Ahead(t, eventId, q, Some(c))[q.limit - 1];
    RowsAreBeyond(t, eventId, q, c, q.limit - 1);
    MillisecondOf(last.recordedAt, c);
  }

  /** The cursor after a page. */
  function Next(t: Tables, eventId: Id, q: Query): int -> Option<int>
    requires eventId in t.events && q.limit >= 1
  {
    c => GetPositions(t, eventId, q, Some(c)).value.nextCursor
  }

  /** The page after the cursor names it again: it is full, and its last row lies within the cursor's millisecond. */
  predicate Stuck(t: Tables, eventId: Id, q: Query, c: int)
    requires q.limit >= 1
  {
    var rows := Ahead(t, eventId, q, Some(c));
    |rows| > q.limit && rows[q.limit - 1].recordedAt < c + 1000
  }

  /** A page leads to a whole millisecond, no earlier than its cursor and no later than the last row of the table. */
  lemma NextIsLater(t: Tables, eventId: Id, q: Query, c: int, end: int)
    requires eventId in t.events && q.limit >= 1 && c % 1000 == 0
    requires forall r :: r in t.history ==> r.recordedAt <= end
    ensures var next := Next(t, eventId, q)(c);
            && (next.Some? ==> c <= next.value <= end && next.value % 1000 == 0)
            && (next == Some(c) <==> Stuck(t, eventId, q, c))
  {
    CutIsPrefix(t, eventId, q, Some(c));
    var rows := Ahead(t, eventId, q, Some(c));
    if |rows| > q.limit {
      CursorStuckExactlyWhen(t, eventId, q, c);
      AheadIsSorted(t, eventId, q, Some(c));
      assert rows[q.limit - 1] in rows;
    }
  }

  /** The cursor after n pages, or None once the walk has ended. */
  function CursorAfter(next: int -> Option<int>, c: int, n: nat): Option<int> {
    if n == 0 then Some(c)
    else
      var before := CursorAfter(next, c, n - 1);
      if before.None? then None else next(before.value)
  }

  predicate StuckAt(next: int -> Option<int>, c: int, k: nat) {
    CursorAfter(next, c, k).Some? && next(CursorAfter(next, c, k).value) == CursorAfter(next, c, k)
  }

  /** Each page leads on from whole milliseconds to whole milliseconds, and never back or past the end. */
  ghost predicate LeadsOn(next: int -> Option<int>, end: int) {
    forall c :: c % 1000 == 0 && next(c).Some? ==> c <= next(c).value <= end && next(c).value % 1000 == 0
  }

  lemma {:induction false} StuckForever(next: int -> Option<int>, c: int, k: nat, n: nat)
    requires k <= n && StuckAt(next, c, k)
    ensures CursorAfter(next, c, n) == CursorAfter(next, c, k)
    decreases n - k
  {
    if k < n {
      StuckForever(next, c, k, n - 1);
    }
  }

  lemma {:induction false} EndedStaysEnded(next: int -> Option<int>, c: int, m: nat, n: nat)
    requires m <= n && CursorAfter(next, c, n).Some?
    ensures CursorAfter(next, c, m).Some?
    decreases n - m
  {
    if m < n {
      EndedStaysEnded(next, c, m, n - 1);
    }
  }

  /** As long as no page names its own cursor, the cursor moves by at least one each page. */
  lemma {:induction false} MovesOn(next: int -> Option<int>, c: int, end: int, n: nat)
    requires c % 1000 == 0 && LeadsOn(next, end) && forall k: nat :: k < n ==> !StuckAt(next, c, k)
    ensures var after := CursorAfter(next, c, n);
            after.Some? ==> c + n <= after.value && after.value % 1000 == 0 && (n > 0 ==> after.value <= end)
  {
    if n > 0 {
      MovesOn(next, c, end, n - 1);
      assert !StuckAt(next, c, n - 1);
    }
  }

  lemma {:induction false} LastTime(history: seq<PositionRow>) returns (end: int)
    ensures forall r :: r in history ==> r.recordedAt <= end
  {
    end := 0;
    if history != [] {
      end := LastTime(history[1..]);
      end := if history[0].recordedAt > end then history[0].recordedAt else end;
    }
  }

  lemma EndsExactlyWhen(next: int -> Option<int>, c: int, end: int)
    requires c % 1000 == 0 && LeadsOn(next, end)
    ensures (exists n: nat :: CursorAfter(next, c, n).None?) <==> forall k: nat :: !StuckAt(next, c, k)
  {
    if k: nat :| StuckAt(next, c, k) {
      forall n: nat ensures CursorAfter(next, c, n).Some? {
        if n <= k {
          EndedStaysEnded(next, c, n, k);
        } else {
          StuckForever(next, c, k, n);
        }
      }
    } else {
      var n: nat := if end >= c then end - c + 1 else 1;
      MovesOn(next, c, end, n);
      assert CursorAfter(next, c, n).None?;
    }
  }

  /** Every cursor of a walk is of whole milliseconds. */
  lemma {:induction false} CursorsAreWhole(next: int -> Option<int>, c: int, end: int, n: nat)
    requires c % 1000 == 0 && LeadsOn(next, end)
    ensures CursorAfter(next, c, n).Some? ==> CursorAfter(next, c, n).value % 1000 == 0
  {
    if n > 0 {
      CursorsAreWhole(next, c, end, n - 1);
    }
  }

  lemma PagesLeadOn(t: Tables, eventId: Id, q: Query) returns (end: int)
    requires eventId in t.events && q.limit >= 1
    ensures LeadsOn(Next(t, eventId, q), end) && forall r :: r in t.history ==> r.recordedAt <= end
  {
    end := LastTime(t.history);
    forall x | x % 1000 == 0 && Next(t, eventId, q)(x).Some?
      ensures x <= Next(t, eventId, q)(x).value <= end && Next(t, eventId, q)(x).value % 1000 == 0
    {
      NextIsLater(t, eventId, q, x, end);
    }
  }

  /** The cursor after k pages is stuck. */
  predicate ReachesStuck(t: Tables, eventId: Id, q: Query, c: int, k: nat)
    requires eventId in t.events && q.limit >= 1
  {
    var reached := CursorAfter(Next(t, eventId, q), c, k);
    reached.Some? && Stuck(t, eventId, q, reached.value)
  }

  lemma StuckAtExactly(t: Tables, eventId: Id, q: Query, c: int, k: nat)
    requires eventId in t.events && q.limit >= 1 && c % 1000 == 0
    ensures StuckAt(Next(t, eventId, q), c, k) <==> ReachesStuck(t, eventId, q, c, k)
  {
    var end := PagesLeadOn(t, eventId, q);
    var reached := CursorAfter(Next(t, eventId, q), c, k);
    CursorsAreWhole(Next(t, eventId, q), c, end, k);
    if reached.Some? {
      NextIsLater(t, eventId, q, reached.value, end);
    }
  }

  /**
   * For any table, times finer than a millisecond included: the walk from a
   * cursor of whole milliseconds ends exactly when no cursor it reaches is
   * stuck.
   */
  lemma WalkEndsExactlyWhen(t: Tables, eventId: Id, q: Query, c: int)
    requires eventId in t.events && q.limit >= 1 && c % 1000 == 0
    ensures (exists n: nat :: CursorAfter(Next(t, eventId, q), c, n).None?) <==>
            forall k: nat :: !ReachesStuck(t, eventId, q, c, k)
  {
    var end := PagesLeadOn(t, eventId, q);
    EndsExactlyWhen(Next(t, eventId, q), c, end);
    forall k: nat ensures StuckAt(Next(t, eventId, q), c, k) <==> ReachesStuck(t, eventId, q, c, k) {
      StuckAtExactly(t, eventId, q, c, k);
    }
  }
}
