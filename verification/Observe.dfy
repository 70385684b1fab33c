/** Reading the journal page by page with a cursor. */
module Observe {
  import opened Journal
  import HashChain

  /** A journal row joined to the principal of its run, which is fixed when the run is inserted,
      before its events. */
  datatype Row = Row(link: HashChain.Row, run: Option<string>, session: Option<string>, principal: Option<string>)

  /** Empty strings filter nothing. */
  datatype Filter = Filter(kind: string, run: string, session: string, principal: string)

  datatype Query = Query(after: Option<int>, filter: Filter, limit: int)

  datatype Response = Response(events: seq<Row>, nextCursor: int, hasMore: bool)

  const MAX_OBSERVE_LIMIT := 1000

  predicate Matches(f: Filter, row: Row) {
    && (f.kind == "" || row.link.kind == f.kind)
    && (f.run == "" || row.run == Some(f.run))
    && (f.session == "" || row.session == Some(f.session))
    && (f.principal == "" || row.principal == Some(f.principal))
  }

  /** The sequence number is the primary key and rows are read in its order. */
  predicate Ordered(log: seq<Row>) {
    && (forall i | 0 <= i < |log| :: log[i].link.sequence > 0)
    && (forall i, j | 0 <= i < j < |log| :: log[i].link.sequence < log[j].link.sequence)
  }

  /** The matching rows after `low`, up to and including `high` if there is one. */
  function Select(log: seq<Row>, f: Filter, low: int, high: Option<int>): seq<Row> {
    if log == [] then []
    else
      var front, last := Select(log[..|log| - 1], f, low, high), log[|log| - 1];
      if last.link.sequence > low && (high.None? || last.link.sequence <= high.value) && Matches(f, last)
      then front + [last] else front
  }

  function Links(log: seq<Row>): (links: seq<HashChain.Row>)
    ensures |links| == |log| && forall i | 0 <= i < |log| :: links[i] == log[i].link
  {
    seq(|log|, i requires 0 <= i < |log| => log[i].link)
  }

  function After(q: Query): int {
    if q.after.Some? then q.after.value else 0
  }

  /** One page: fetch one row more than asked for to see whether there are more. */
  function Page(log: seq<Row>, q: Query): Response
    requires q.limit >= 1
  {
    var rows := Select(log, q.filter, After(q), None);
    var hasMore := |rows| > q.limit;
    var page := if hasMore then rows[..q.limit] else rows;
    Response(page, if page == [] then After(q) else page[|page| - 1].link.sequence, hasMore)
  }

  ghost function Observed(env: HashChain.Env, log: seq<Row>, q: Query): Result<Response> {
    if !(1 <= q.limit <= MAX_OBSERVE_LIMIT) then Err(InvalidLimit)
    else if !HashChain.Accepted(env, Links(log)) then Err(JournalCorrupt)
    else Ok(Page(log, q))
  }

  // ------------------------------------------------------------------ The reader

  method ObserveEvents(env: HashChain.Env, log: seq<Row>, q: Query) returns (r: Result<Response>)
    ensures r == Observed(env, log, q)
    ensures r == Err(InvalidLimit) <==> q.limit < 1 || q.limit > 1000
    ensures r == Err(JournalCorrupt) <==> 1 <= q.limit <= 1000 && !HashChain.Accepted(env, Links(log))
  {
    if !(1 <= q.limit <= MAX_OBSERVE_LIMIT) {
      return Err(InvalidLimit);
    }
    var intact := HashChain.VerifyStoredKind(env, Links(log));
    if !intact {
      return Err(JournalCorrupt);
    }
    var page := ReadPage(log, q);
    r := Ok(page);
  }

  method ReadPage(log: seq<Row>, q: Query) returns (r: Response)
    requires q.limit >= 1
    ensures r == Page(log, q)
  {
    var fetched := Fetch(log, q, q.limit + 1);
    var hasMore := |fetched| > q.limit;
    var page := if hasMore then fetched[..q.limit] else fetched;
    var nextCursor := if page == [] then After(q) else page[|page| - 1].link.sequence;
    r := Response(page, nextCursor, hasMore);
  }

  /** The query: scan in order and stop at the fetch limit. */
  method Fetch(log: seq<Row>, q: Query, limit: nat) returns (rows: seq<Row>)
    ensures var all := Select(log, q.filter, After(q), None); rows == if |all| > limit then all[..limit] else all
  {
    rows := [];
    for i := 0 to |log|
      invariant rows == Select(log[..i], q.filter, After(q), None)
      invariant |rows| <= limit
    {
      assert log[..i + 1][..i] == log[..i];
      if log[i].link.sequence > After(q) && Matches(q.filter, log[i]) {
        if |rows| == limit {
          SelectGrows(log, q.filter, After(q), i + 1);
          return;
        }
        rows := rows + [log[i]];
      }
    }
    assert log[..|log|] == log;
  }

  lemma {:induction false} SelectGrows(log: seq<Row>, f: Filter, low: int, n: nat)
    requires n <= |log|
    ensures Select(log[..n], f, low, None) <= Select(log, f, low, None)
    decreases |log|
  {
    if n == |log| {
      assert log[..n] == log;
    } else {
      var front := log[..|log| - 1];
      assert front[..n] == log[..n];
      SelectGrows(front, f, low, n);
    }
  }

  /** A journal that the appender wrote is in order, and its pages are served exactly when every
      payload survives being parsed and serialized again. */
  lemma WrittenIsReadableExactly(env: HashChain.Env, log: seq<Row>, q: Query)
    requires HashChain.Written(env, Links(log))
    ensures Ordered(log)
    ensures 1 <= q.limit <= MAX_OBSERVE_LIMIT ==>
              if forall link <- Links(log) :: HashChain.Reparses(env, link)
              then Observed(env, log, q) == Ok(Page(log, q))
              else Observed(env, log, q).Err?
  {
    var links := Links(log);
    HashChain.WrittenIsAcceptedExactly(env, links);
    assert forall i | 0 <= i < |log| :: log[i].link == links[i];
  }

  // -------------------------------------------------------------- How pages join

  lemma {:induction false} SelectMembers(log: seq<Row>, f: Filter, low: int, high: Option<int>)
    requires Ordered(log)
    ensures Ordered(Select(log, f, low, high))
    ensures forall row <- Select(log, f, low, high) ::
              row in log && row.link.sequence > low && (high.Some? ==> row.link.sequence <= high.value)
  {
    if log != [] {
      var front := log[..|log| - 1];
      SelectMembers(front, f, low, high);
      var rows := Select(front, f, low, high);
      forall i | 0 <= i < |rows| ensures rows[i].link.sequence < log[|log| - 1].link.sequence {
        assert rows[i] in rows && rows[i] in front;
      }
    }
  }

  lemma {:induction false} SelectNothing(log: seq<Row>, f: Filter, low: int, high: Option<int>)
    requires forall i | 0 <= i < |log| :: log[i].link.sequence <= low
    ensures Select(log, f, low, high) == []
  {
    if log != [] { SelectNothing(log[..|log| - 1], f, low, high); }
  }

  lemma {:induction false} SelectSplits(log: seq<Row>, f: Filter, low: int, mid: int, high: Option<int>)
    requires Ordered(log) && low <= mid && (high.Some? ==> mid <= high.value)
    ensures Select(log, f, low, high) == Select(log, f, low, Some(mid)) + Select(log, f, mid, high)
  {
    if log != [] {
      var front, last := log[..|log| - 1], log[|log| - 1];
      SelectSplits(front, f, low, mid, high);
      if last.link.sequence <= mid {
        SelectNothing(front, f, mid, high);
      }
    }
  }

  lemma CutOrdered(head: seq<Row>, tail: seq<Row>, k: nat, mid: int)
    requires Ordered(head + tail) && 0 < k <= |head + tail| && (head + tail)[k - 1].link.sequence == mid
    requires forall i | 0 <= i < |head| :: head[i].link.sequence <= mid
    requires forall i | 0 <= i < |tail| :: tail[i].link.sequence > mid
    ensures head == (head + tail)[..k]
  {
    var rows := head + tail;
    assert forall i | |head| <= i < |rows| :: rows[i] == tail[i - |head|];
    assert k - 1 < |head|;
    assert k < |rows| ==> rows[k].link.sequence > mid;
  }

  /** Cutting the selection at its own row `k - 1` keeps exactly the first `k` rows. */
  lemma CutAtRow(log: seq<Row>, f: Filter, low: int, k: nat)
    requires Ordered(log) && 0 < k <= |Select(log, f, low, None)|
    ensures var rows := Select(log, f, low, None);
            Select(log, f, low, Some(rows[k - 1].link.sequence)) == rows[..k]
  {
    var rows := Select(log, f, low, None);
    var mid := rows[k - 1].link.sequence;
    SelectMembers(log, f, low, None);
    assert rows[k - 1] in rows;
    SelectSplits(log, f, low, mid, None);
    SelectMembers(log, f, low, Some(mid));
    SelectMembers(log, f, mid, None);
    CutOrdered(Select(log, f, low, Some(mid)), Select(log, f, mid, None), k, mid);
  }

  /** A page holds exactly the matching rows between the two cursors, and there are more exactly
      when some matching row lies beyond. */
  lemma PageIsInterval(log: seq<Row>, q: Query)
    requires Ordered(log) && q.limit >= 1
    ensures var page := Page(log, q);
            && page.nextCursor >= After(q)
            && page.events == Select(log, q.filter, After(q), Some(page.nextCursor))
            && (page.hasMore <==> Select(log, q.filter, page.nextCursor, None) != [])
            && |page.events| <= q.limit && (page.hasMore ==> |page.events| == q.limit)
    ensures q.after.None? ==> Page(log, q) == Page(log, q.(after := Some(0)))
  {
    var rows, page := Select(log, q.filter, After(q), None), Page(log, q);
    SelectMembers(log, q.filter, After(q), None);
    if rows == [] {
      SelectSplits(log, q.filter, After(q), After(q), None);
    } else {
      var k := |page.events|;
      assert page.events == rows[..k] && rows[k - 1] in rows;
      CutAtRow(log, q.filter, After(q), k);
      SelectSplits(log, q.filter, After(q), page.nextCursor, None);
    }
  }

  /** Rows appended later lie beyond every cursor handed out before. */
  lemma {:induction false} AppendsLieBeyond(log: seq<Row>, more: seq<Row>, f: Filter, low: int, cursor: int)
    requires Ordered(log + more) && (cursor <= 0 || exists i | 0 <= i < |log| :: cursor <= log[i].link.sequence)
    ensures Select(log + more, f, low, Some(cursor)) == Select(log, f, low, Some(cursor))
    decreases |more|
  {
    if more == [] {
      assert log + more == log;
    } else {
      var front, last := more[..|more| - 1], more[|more| - 1];
      assert (log + more)[..|log + more| - 1] == log + front;
      assert (log + more)[|log + more| - 1] == last;
      if cursor > 0 {
        var i :| 0 <= i < |log| && cursor <= log[i].link.sequence;
        assert (log + more)[i] == log[i];
      }
      assert last.link.sequence > cursor;
      AppendsLieBeyond(log, front, f, low, cursor);
    }
  }

  // ---------------------------------------------------------------- Whole readings

  /** Selection read declaratively: the matching rows of the interval, no others. */
  lemma {:induction false} SelectExactly(log: seq<Row>, f: Filter, low: int, high: Option<int>, row: Row)
    ensures row in Select(log, f, low, high) <==>
            && row in log && row.link.sequence > low && (high.Some? ==> row.link.sequence <= high.value)
            && (f.kind != "" ==> row.link.kind == f.kind) && (f.run != "" ==> row.run == Some(f.run))
            && (f.session != "" ==> row.session == Some(f.session))
            && (f.principal != "" ==> row.principal == Some(f.principal))
  {
    if log != [] {
      var front, last := log[..|log| - 1], log[|log| - 1];
      assert log == front + [last];
      SelectExactly(front, f, low, high, row);
    }
  }

  function CursorBefore(pages: seq<Response>, i: nat): int
    requires i <= |pages|
  {
    if i == 0 then 0 else pages[i - 1].nextCursor
  }

  /** A client that starts at 0 and passes each cursor on, with any page sizes, while the journal
      may grow between pages. */
  ghost predicate IsReading(f: Filter, logs: seq<seq<Row>>, limits: seq<int>, pages: seq<Response>) {
    && |logs| == |limits| == |pages|
    && forall i | 0 <= i < |pages| :: ReadsPage(f, logs, limits, pages, i)
  }

  ghost predicate ReadsPage(f: Filter, logs: seq<seq<Row>>, limits: seq<int>, pages: seq<Response>, i: nat)
    requires |logs| == |limits| == |pages| && i < |pages|
  {
    && Ordered(logs[i]) && 1 <= limits[i] <= MAX_OBSERVE_LIMIT
    && pages[i] == Page(logs[i], Query(Some(CursorBefore(pages, i)), f, limits[i]))
    && (i > 0 ==> logs[i - 1] <= logs[i])
  }

  function Delivered(pages: seq<Response>): seq<Row> {
    if pages == [] then [] else Delivered(pages[..|pages| - 1]) + pages[|pages| - 1].events
  }

  predicate CursorReached(log: seq<Row>, cursor: int) {
    cursor <= 0 || exists i | 0 <= i < |log| :: cursor <= log[i].link.sequence
  }

  lemma PageReachesCursor(log: seq<Row>, q: Query)
    requires Ordered(log) && q.limit >= 1 && CursorReached(log, After(q))
    ensures CursorReached(log, Page(log, q).nextCursor)
  {
    var page := Page(log, q);
    SelectMembers(log, q.filter, After(q), None);
    if page.events != [] {
      var last := page.events[|page.events| - 1];
      assert last in Select(log, q.filter, After(q), None);
      var i :| 0 <= i < |log| && log[i] == last;
    }
  }

  /** One more page extends what was delivered up to its cursor. */
  lemma NextPageExtends(log: seq<Row>, q: Query, delivered: seq<Row>)
    requires Ordered(log) && q.limit >= 1 && After(q) >= 0 && CursorReached(log, After(q))
    requires delivered == Select(log, q.filter, 0, Some(After(q)))
    ensures var page := Page(log, q);
            && delivered + page.events == Select(log, q.filter, 0, Some(page.nextCursor))
            && CursorReached(log, page.nextCursor) && page.nextCursor >= 0
            && (page.hasMore <==> Select(log, q.filter, page.nextCursor, None) != [])
  {
    PageIsInterval(log, q);
    PageReachesCursor(log, q);
    SelectSplits(log, q.filter, 0, After(q), Some(Page(log, q).nextCursor));
  }

  lemma GrownLogAgrees(log: seq<Row>, log': seq<Row>, f: Filter, cursor: int)
    requires Ordered(log') && log <= log' && CursorReached(log, cursor)
    ensures Select(log', f, 0, Some(cursor)) == Select(log, f, 0, Some(cursor)) && CursorReached(log', cursor)
  {
    assert log' == log + log'[|log|..];
    AppendsLieBeyond(log, log'[|log|..], f, 0, cursor);
    StillReached(log, log', cursor);
  }

  lemma {:induction false} PagesCoverInterval(f: Filter, logs: seq<seq<Row>>, limits: seq<int>, pages: seq<Response>,
                                              n: nat)
    requires IsReading(f, logs, limits, pages) && 0 < n <= |pages|
    ensures Delivered(pages[..n]) == Select(logs[n - 1], f, 0, Some(CursorBefore(pages, n)))
    ensures CursorReached(logs[n - 1], CursorBefore(pages, n)) && CursorBefore(pages, n) >= 0
    ensures pages[n - 1].hasMore <==> Select(logs[n - 1], f, CursorBefore(pages, n), None) != []
  {
    var log, cursor := logs[n - 1], CursorBefore(pages, n - 1);
    assert ReadsPage(f, logs, limits, pages, n - 1);
    assert pages[..n][..n - 1] == pages[..n - 1];
    if n == 1 {
      NothingAtZero(log, f);
    } else {
      PagesCoverInterval(f, logs, limits, pages, n - 1);
      GrownLogAgrees(logs[n - 2], log, f, cursor);
    }
    NextPageExtends(log, Query(Some(cursor), f, limits[n - 1]), Delivered(pages[..n - 1]));
  }

  lemma StillReached(log: seq<Row>, log': seq<Row>, cursor: int)
    requires CursorReached(log, cursor) && log <= log'
    ensures CursorReached(log', cursor)
  {
  }

  lemma {:induction false} NothingAtZero(log: seq<Row>, f: Filter)
    ensures Select(log, f, 0, Some(0)) == []
  {
    if log != [] { NothingAtZero(log[..|log| - 1], f); }
  }

  /** Following the cursors delivers every matching event exactly once and in order, whatever the
      page sizes and however the journal grew in between: after `n` pages, exactly the matching
      events up to the cursor, and all of them once a page says there are no more. */
  lemma PagesDeliverEachMatchOnce(f: Filter, logs: seq<seq<Row>>, limits: seq<int>, pages: seq<Response>, n: nat,
                                  row: Row)
    requires IsReading(f, logs, limits, pages) && 0 < n <= |pages|
    ensures Ordered(Delivered(pages[..n]))
    ensures row in Delivered(pages[..n]) <==>
            row in logs[n - 1] && Matches(f, row) && row.link.sequence <= CursorBefore(pages, n)
    ensures !pages[n - 1].hasMore ==> Delivered(pages[..n]) == Select(logs[n - 1], f, 0, None)
    ensures !pages[n - 1].hasMore ==> (row in Delivered(pages[..n]) <==> row in logs[n - 1] && Matches(f, row))
  {
    var log, cursor := logs[n - 1], CursorBefore(pages, n);
    assert ReadsPage(f, logs, limits, pages, n - 1);
    PagesCoverInterval(f, logs, limits, pages, n);
    SelectMembers(log, f, 0, Some(cursor));
    SelectExactly(log, f, 0, Some(cursor), row);
    SelectExactly(log, f, 0, None, row);
    SelectSplits(log, f, 0, cursor, None);
  }

  lemma {:induction false} FullPagesAddUp(f: Filter, logs: seq<seq<Row>>, limits: seq<int>, pages: seq<Response>,
                                          n: nat)
    requires IsReading(f, logs, limits, pages) && n <= |pages| && forall i | 0 <= i < n :: pages[i].hasMore
    ensures |Delivered(pages[..n])| >= n
  {
    if n > 0 {
      assert ReadsPage(f, logs, limits, pages, n - 1);
      assert pages[..n][..n - 1] == pages[..n - 1];
      FullPagesAddUp(f, logs, limits, pages, n - 1);
    }
  }

  /** On a journal that no longer grows, reading ends: among more pages than there are matching
      events, one says there are no more. */
  lemma QuiescentReadingEnds(f: Filter, log: seq<Row>, logs: seq<seq<Row>>, limits: seq<int>, pages: seq<Response>)
    requires IsReading(f, logs, limits, pages) && forall i | 0 <= i < |logs| :: logs[i] == log
    requires |pages| > |Select(log, f, 0, None)|
    ensures exists i | 0 <= i < |pages| :: !pages[i].hasMore
  {
    var n := |pages|;
    if forall i | 0 <= i < n :: pages[i].hasMore {
      FullPagesAddUp(f, logs, limits, pages, n);
      PagesCoverInterval(f, logs, limits, pages, n);
      assert ReadsPage(f, logs, limits, pages, n - 1);
      SelectSplits(log, f, 0, CursorBefore(pages, n), None);
      assert false;
    }
  }
}
