/**
 A drain in pages refines one scan of the log. While the log stands still, the
 pages of a drain publish exactly the decodable ids of the range they covered,
 ascending and once each, whatever the page size and wherever a failed read
 stops them.
 */
module NotifyScan {
  import opened Basics
  import opened EventLogs
  import opened NotifyFloors
  import opened NotifyRuns

  /** The rows with `lo < id <= hi`, in one scan. */
  function Between(log: seq<Row>, lo: int, hi: int): seq<Row> {
    if log == [] then []
    else
      var last := log[|log| - 1];
      Between(log[..|log| - 1], lo, hi) + if lo < last.id <= hi then [last] else []
  }

  lemma {:induction false} BetweenHolds(log: seq<Row>, lo: int, hi: int)
    ensures forall r :: r in Between(log, lo, hi) <==> r in log && lo < r.id <= hi
  {
    if log != [] {
      assert log == log[..|log| - 1] + [log[|log| - 1]];
      BetweenHolds(log[..|log| - 1], lo, hi);
    }
  }

  lemma {:induction false} BetweenSorted(log: seq<Row>, lo: int, hi: int)
    requires Sorted(log)
    ensures Sorted(Between(log, lo, hi))
  {
    if log != [] {
      var init := log[..|log| - 1];
      BetweenSorted(init, lo, hi);
      BetweenHolds(init, lo, hi);
      var p := Between(init, lo, hi);
      forall i | 0 <= i < |p| ensures p[i].id < log[|log| - 1].id {
        assert p[i] in p;
      }
    }
  }

  lemma BetweenSplits(log: seq<Row>, lo: int, mid: int, hi: int)
    requires Sorted(log) && lo <= mid <= hi
    ensures Between(log, lo, hi) == Between(log, lo, mid) + Between(log, mid, hi)
  {
    var p, q := Between(log, lo, mid), Between(log, mid, hi);
    BetweenSorted(log, lo, mid);
    BetweenSorted(log, mid, hi);
    BetweenSorted(log, lo, hi);
    BetweenHolds(log, lo, mid);
    BetweenHolds(log, mid, hi);
    BetweenHolds(log, lo, hi);
    SortedConcat(p, q, mid);
    SameRows(p + q, Between(log, lo, hi));
  }

  /** A published range is ascending, so it repeats nothing. */
  lemma {:induction false} DecodedAscends(rows: seq<Row>)
    requires Sorted(rows)
    ensures Ascending(Decoded(rows))
  {
    if rows != [] {
      var init := rows[..|rows| - 1];
      DecodedAscends(init);
      forall i | 0 <= i < |Decoded(init)| ensures Decoded(init)[i] < rows[|rows| - 1].id {
        assert Decoded(init)[i] in Decoded(init);
        DecodedHolds(init);
        assert Row(Decoded(init)[i], true) in init;
      }
    }
  }

  /** The part of a page before the bound is the scan up to where it ends. */
  lemma PageIsScan(log: seq<Row>, cursor: int, to: Option<int>, page: seq<Row>, limit: nat)
    requires Sorted(log) && IsPage(log, cursor, limit, page)
    ensures Before(page, to) == Between(log, cursor, LastId(Before(page, to), cursor))
  {
    var rows := Before(page, to);
    var last := LastId(rows, cursor);
    BeforeIsSorted(page, to, log, cursor, limit);
    BetweenSorted(log, cursor, last);
    BetweenHolds(log, cursor, last);
    assert forall i :: 0 <= i < |rows| ==> rows[i] == page[i];
    forall r | r in Between(log, cursor, last) ensures r in rows {
      if r in page {
        InPageSwept(page, to, r);
      } else {
        BeyondPageSwept(page, to, r.id);
      }
    }
    SameRows(rows, Between(log, cursor, last));
  }

  /** A completed page leaves nothing between where it ends and the bound. */
  lemma CompleteIsEmpty(log: seq<Row>, cursor: int, to: Option<int>, page: seq<Row>, limit: nat, hi: int)
    requires Sorted(log) && IsPage(log, cursor, limit, page)
    requires DrainPage(cursor, to, PageRows(page), limit).status == Complete
    requires to.Some? ==> hi < to.value
    ensures Between(log, DrainPage(cursor, to, PageRows(page), limit).cursor, hi) == []
  {
    var rows := Before(page, to);
    var last := LastId(rows, cursor);
    BeforeIsSorted(page, to, log, cursor, limit);
    var rest := Between(log, last, hi);
    BetweenHolds(log, last, hi);
    if rest != [] {
      var r := rest[0];
      assert r in rest;
      if r in page {
        InPageSwept(page, to, r);
      } else {
        BeyondPageSwept(page, to, r.id);
      }
      assert false;
    }
  }

  /** What one unbounded scan of `lo < id <= hi` publishes. */
  function Scan(log: seq<Row>, lo: int, hi: int): seq<int> {
    Decoded(Between(log, lo, hi))
  }

  /** Every read met the same log. */
  ghost predicate Still(log: seq<Row>, trace: seq<Seen>) {
    forall i :: 0 <= i < |trace| ==> trace[i].rows == log && trace[i].answer.Page?
  }

  /** Where a drain that began after `from` stands against the one scan. */
  ghost predicate Scanning(log: seq<Row>, f: Floor, from: int, to: Option<int>, g: Floor) {
    match g.phase
    case Draining(cursor, bound) =>
      && bound == to && cursor >= from && (to.Some? && from < to.value ==> cursor < to.value)
      && g.published == f.published + Scan(log, from, cursor)
    case Hydrating(id, covered) =>
      && to == Some(id) && covered >= from
      && g.published == f.published + Scan(log, from, covered)
    case Idle => to.None? && g.mark >= from && g.published == f.published + Scan(log, from, g.mark)
    case Starting => false
  }

  lemma CursorMoves(log: seq<Row>, cursor: int, to: Option<int>, page: seq<Row>, limit: nat)
    requires IsPage(log, cursor, limit, page) && (to.Some? ==> cursor < to.value)
    ensures var d := DrainPage(cursor, to, PageRows(page), limit);
      cursor <= d.cursor && (to.Some? ==> d.cursor < to.value)
  {
    BeforeIsSorted(page, to, log, cursor, limit);
    var rows := Before(page, to);
    assert rows != [] ==> rows[|rows| - 1] in rows;
  }

  lemma PagePublishes(log: seq<Row>, from: int, cursor: int, to: Option<int>, page: seq<Row>, limit: nat)
    requires Sorted(log) && IsPage(log, cursor, limit, page) && from <= cursor
    requires cursor <= DrainPage(cursor, to, PageRows(page), limit).cursor
    ensures var d := DrainPage(cursor, to, PageRows(page), limit);
      Scan(log, from, d.cursor) == Scan(log, from, cursor) + d.published
  {
    var end := LastId(Before(page, to), cursor);
    PageIsScan(log, cursor, to, page, limit);
    BetweenSplits(log, from, cursor, end);
    DecodedConcat(Between(log, from, cursor), Between(log, cursor, end));
  }

  lemma CompleteReachesBound(log: seq<Row>, from: int, cursor: int, to: int, page: seq<Row>, limit: nat)
    requires Sorted(log) && IsPage(log, cursor, limit, page)
    requires DrainPage(cursor, Some(to), PageRows(page), limit).status == Complete
    requires from <= DrainPage(cursor, Some(to), PageRows(page), limit).cursor < to
    ensures Between(log, from, to - 1) == Between(log, from, DrainPage(cursor, Some(to), PageRows(page), limit).cursor)
  {
    var end := DrainPage(cursor, Some(to), PageRows(page), limit).cursor;
    CompleteIsEmpty(log, cursor, Some(to), page, limit, to - 1);
    NothingBetween(log, from, end, to - 1);
  }

  lemma NothingBetween(log: seq<Row>, from: int, mid: int, hi: int)
    requires Sorted(log) && from <= mid <= hi && Between(log, mid, hi) == []
    ensures Between(log, from, hi) == Between(log, from, mid)
  {
    BetweenSplits(log, from, mid, hi);
    Appended(Between(log, from, mid), [], []);
  }

  /** With page `d` added, the drain has published the scan up to `d.cursor`. */
  ghost predicate Extends(log: seq<Row>, f: Floor, from: int, to: Option<int>, m: Floor, d: DrainState) {
    && from <= d.cursor && (to.Some? ==> d.cursor < to.value)
    && m.published + d.published == f.published + Scan(log, from, d.cursor)
  }

  /** A completed page leaves nothing to scan below the bound. */
  ghost predicate Closes(log: seq<Row>, from: int, to: Option<int>, d: DrainState) {
    d.status == Complete && to.Some? ==> Scan(log, from, to.value - 1) == Scan(log, from, d.cursor)
  }

  lemma PageExtends(log: seq<Row>, f: Floor, from: int, to: Option<int>, m: Floor, page: seq<Row>, limit: nat)
    requires Sorted(log) && m.phase.Draining? && IsPage(log, m.phase.cursor, limit, page)
    requires Scanning(log, f, from, to, m) && (to.Some? ==> from < to.value)
    ensures Extends(log, f, from, to, m, DrainPage(m.phase.cursor, to, PageRows(page), limit))
  {
    var cursor := m.phase.cursor;
    CursorMoves(log, cursor, to, page, limit);
    PagePublishes(log, from, cursor, to, page, limit);
    Appended(f.published, Scan(log, from, cursor), DrainPage(cursor, to, PageRows(page), limit).published);
  }

  lemma PageCloses(log: seq<Row>, from: int, cursor: int, to: Option<int>, page: seq<Row>, limit: nat)
    requires Sorted(log) && IsPage(log, cursor, limit, page) && from <= cursor && (to.Some? ==> cursor < to.value)
    ensures Closes(log, from, to, DrainPage(cursor, to, PageRows(page), limit))
  {
    CursorMoves(log, cursor, to, page, limit);
    if to.Some? && DrainPage(cursor, to, PageRows(page), limit).status == Complete {
      CompleteReachesBound(log, from, cursor, to.value, page, limit);
    }
  }

  lemma Lands(log: seq<Row>, f: Floor, from: int, to: Option<int>, m: Floor, d: DrainState)
    requires m.phase.Draining? && m.phase.to == to && Extends(log, f, from, to, m, d) && Closes(log, from, to, d)
    ensures Scanning(log, f, from, to, TakePage(m, d))
  {
  }

  lemma ScanPage(log: seq<Row>, f: Floor, from: int, to: Option<int>, m: Floor, page: seq<Row>, limit: nat)
    requires Sorted(log) && m.phase.Draining? && IsPage(log, m.phase.cursor, limit, page)
    requires Scanning(log, f, from, to, m) && (to.Some? ==> from < to.value)
    ensures Scanning(log, f, from, to, OnPage(m, PageRows(page), limit))
  {
    PageExtends(log, f, from, to, m, page, limit);
    PageCloses(log, from, m.phase.cursor, to, page, limit);
    Lands(log, f, from, to, m, DrainPage(m.phase.cursor, to, PageRows(page), limit));
  }

  lemma ScanStops(log: seq<Row>, f: Floor, from: int, to: Option<int>, m: Floor, limit: nat)
    requires m.phase.Draining? && Scanning(log, f, from, to, m) && (to.Some? ==> from < to.value)
    ensures Scanning(log, f, from, to, OnPage(m, PageFailed, limit))
  {
    Appended(m.published, [], []);
    Lands(log, f, from, to, m, DrainPage(m.phase.cursor, to, PageFailed, limit));
  }

  lemma {:induction false} DrainScans(log: seq<Row>, f: Floor, from: int, to: Option<int>, trace: seq<Seen>, limit: nat, g: Floor)
    requires Sorted(log) && f.phase == Draining(from, to) && (to.Some? ==> from < to.value)
    requires Runs(f, trace, limit, g) && Still(log, trace)
    ensures Scanning(log, f, from, to, g)
    decreases |trace|
  {
    if trace == [] {
      BetweenHolds(log, from, from);
      HasMember(Between(log, from, from));
    } else {
      var k := |trace| - 1;
      var m :| Runs(f, trace[..k], limit, m) && Answers(m, trace[k], limit) && g == Absorb(m, trace[k], limit);
      DrainScans(log, f, from, to, trace[..k], limit, m);
      assert trace[k] == Seen(log, Page(trace[k].answer.page));
      if trace[k].answer.page.PageRows? {
        ScanPage(log, f, from, to, m, trace[k].answer.page.rows, limit);
      } else {
        ScanStops(log, f, from, to, m, limit);
      }
    }
  }
}
