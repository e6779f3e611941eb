/**
 The event log as its readers see it: committed rows in id order, read in
 bounded pages. Transactions take ids in order and commit in any order, so rows
 may appear below rows that are already there. Every read is a point where
 other transactions may have committed and where the read itself may fail; the
 `turns` of an `EventLog` object fix what each future read meets, and nothing
 about them is assumed beyond the log being append-only.
 */
module EventLogs {
  import opened Basics

  /** A committed event and whether its row decodes into an envelope. */
  datatype Row = Row(id: int, decodes: bool)

  datatype PageReply = PageFailed | PageRows(rows: seq<Row>)

  datatype GetReply = Got | NotFound | Unreadable

  ghost predicate Sorted(rows: seq<Row>) {
    forall i, j :: 0 <= i < j < |rows| ==> rows[i].id < rows[j].id
  }

  ghost predicate Grows(before: seq<Row>, after: seq<Row>) {
    forall r :: r in before ==> r in after
  }

  /** A sorted list is determined by what it holds. */
  lemma {:induction false} SameRows(p: seq<Row>, q: seq<Row>)
    requires Sorted(p) && Sorted(q)
    requires forall r :: r in p <==> r in q
    ensures p == q
  {
    if p == [] {
      HasMember(q);
    } else {
      assert p[0] in p && p[0] in q;
      assert q[0] in q && q[0] in p;
      assert p[0] == q[0];
      assert p == [p[0]] + p[1..] && q == [q[0]] + q[1..];
      assert forall r :: r in p[1..] <==> r in p && r.id > p[0].id;
      assert forall r :: r in q[1..] <==> r in q && r.id > q[0].id;
      SameRows(p[1..], q[1..]);
    }
  }

  function LastId(rows: seq<Row>, otherwise: int): int {
    if rows == [] then otherwise else rows[|rows| - 1].id
  }

  lemma SortedConcat(a: seq<Row>, b: seq<Row>, cursor: int)
    requires Sorted(a) && Sorted(b)
    requires forall r :: r in a ==> r.id <= cursor
    requires forall r :: r in b ==> r.id > cursor
    ensures Sorted(a + b)
  {
    assert forall i :: 0 <= i < |a| ==> a[i] in a;
    assert forall i :: 0 <= i < |b| ==> b[i] in b;
  }

  /** Where the rows above `after` begin. */
  function FirstAbove(rows: seq<Row>, after: int): (k: nat)
    ensures k <= |rows|
    ensures forall i :: 0 <= i < k ==> rows[i].id <= after
    ensures k < |rows| ==> rows[k].id > after
  {
    if rows == [] || rows[0].id > after then 0 else 1 + FirstAbove(rows[1..], after)
  }

  /** `SELECT ... WHERE id > after ORDER BY id LIMIT limit`. */
  function PageOf(rows: seq<Row>, after: int, limit: nat): (page: seq<Row>) {
    var k := FirstAbove(rows, after);
    rows[k..Min(k + limit, |rows|)]
  }

  /** The page contract: rows of the log above `after`, in id order, none of
      them skipped; a page shorter than `limit` has reached the end. */
  ghost predicate IsPage(rows: seq<Row>, after: int, limit: nat, page: seq<Row>) {
    && Sorted(page)
    && |page| <= limit
    && (forall r :: r in page ==> r in rows && r.id > after)
    && (forall r :: r in rows && r.id > after ==>
          r in page || (|page| == limit && page != [] && r.id > page[|page| - 1].id))
  }

  lemma PageWithin(rows: seq<Row>, k: nat, m: nat, after: int)
    requires Sorted(rows) && k <= m <= |rows| && (k < |rows| ==> rows[k].id > after)
    ensures Sorted(rows[k..m]) && forall r :: r in rows[k..m] ==> r in rows && r.id > after
  {
    forall r | r in rows[k..m] ensures r in rows && r.id > after {
      var i :| k <= i < m && rows[i] == r;
      assert i > k ==> rows[k].id < rows[i].id;
    }
  }

  lemma OnPageOrBeyond(rows: seq<Row>, k: nat, limit: nat, i: nat)
    requires Sorted(rows) && k <= i < |rows| && limit > 0
    ensures var page := rows[k..Min(k + limit, |rows|)];
      rows[i] in page || (|page| == limit && rows[i].id > page[|page| - 1].id)
  {
    var page := rows[k..Min(k + limit, |rows|)];
    if i < k + limit {
      assert page[i - k] == rows[i];
    }
  }

  lemma PageCovers(rows: seq<Row>, after: int, limit: nat)
    requires Sorted(rows) && limit > 0
    ensures var page := PageOf(rows, after, limit);
      forall r :: r in rows && r.id > after ==> r in page || (|page| == limit && page != [] && r.id > page[|page| - 1].id)
  {
    var k := FirstAbove(rows, after);
    var page := PageOf(rows, after, limit);
    forall r | r in rows && r.id > after
      ensures r in page || (|page| == limit && page != [] && r.id > page[|page| - 1].id)
    {
      var i :| 0 <= i < |rows| && rows[i] == r;
      OnPageOrBeyond(rows, k, limit, i);
    }
  }

  lemma PageOfIsPage(rows: seq<Row>, after: int, limit: nat)
    requires Sorted(rows) && limit > 0
    ensures IsPage(rows, after, limit, PageOf(rows, after, limit))
  {
    var k := FirstAbove(rows, after);
    PageWithin(rows, k, Min(k + limit, |rows|), after);
    PageCovers(rows, after, limit);
  }

  /** How many rows lie above `after`. */
  function CountAbove(rows: seq<Row>, after: int): nat {
    if rows == [] then 0
    else (if rows[0].id > after then 1 else 0) + CountAbove(rows[1..], after)
  }

  lemma {:induction false} CountAboveDrops(rows: seq<Row>, after: int, cursor: int, r: Row)
    requires after < cursor
    ensures CountAbove(rows, cursor) <= CountAbove(rows, after)
    ensures r in rows && after < r.id <= cursor ==> CountAbove(rows, cursor) < CountAbove(rows, after)
  {
    if rows != [] {
      CountAboveDrops(rows[1..], after, cursor, r);
    }
  }

  /** What one future read meets: the rows committed by then, and whether the
      read fails. */
  datatype Turn = Turn(rows: seq<Row>, fails: bool)

  /** The log now, and what each read to come will meet. After the last turn
      nothing commits and no read fails. */
  datatype Future = Future(rows: seq<Row>, turns: seq<Turn>) {
    ghost predicate Valid()
      decreases |turns|
    {
      && Sorted(rows)
      && (turns == [] || (Grows(rows, turns[0].rows) && Ahead().Valid()))
    }

    /** Once one more read has happened. */
    function Ahead(): Future {
      if turns == [] then this else Future(turns[0].rows, turns[1..])
    }

    predicate NextFails() {
      turns != [] && turns[0].fails
    }

    /** No transaction commits during the reads to come. */
    ghost predicate Quiet() {
      forall i :: 0 <= i < |turns| ==> turns[i].rows == rows
    }

    /** No read to come fails. */
    ghost predicate FaultFree() {
      forall i :: 0 <= i < |turns| ==> !turns[i].fails
    }

    /** Once `n` more reads have happened. */
    ghost function After(n: nat): Future {
      if n == 0 then this else After(n - 1).Ahead()
    }

    lemma {:induction false} AfterKeeps(n: nat)
      ensures Valid() ==> After(n).Valid() && Grows(rows, After(n).rows)
      ensures Quiet() ==> After(n).Quiet() && After(n).rows == rows
      ensures FaultFree() ==> After(n).FaultFree()
    {
      if n > 0 {
        AfterKeeps(n - 1);
      }
    }
  }

  /** The log behind `head`, `page_after` and `get`. */
  class EventLog {
    var future: Future

    constructor (future: Future)
      ensures this.future == future
    {
      this.future := future;
    }

    method Head() returns (head: Result<int, ()>)
      requires future.Valid()
      modifies this
      ensures future == old(future).Ahead()
      ensures head == if old(future).NextFails() then Err(())
                      else Ok(if future.rows == [] then 0 else future.rows[|future.rows| - 1].id)
      ensures head.Ok? ==> forall r :: r in future.rows ==> r.id <= head.value
    {
      var fails := future.NextFails();
      future := future.Ahead();
      head := if fails then Err(()) else Ok(if future.rows == [] then 0 else future.rows[|future.rows| - 1].id);
    }

    method PageAfter(after: int, limit: nat) returns (reply: PageReply)
      requires future.Valid() && limit > 0
      modifies this
      ensures future == old(future).Ahead()
      ensures reply.PageFailed? <==> old(future).NextFails()
      ensures reply.PageRows? ==> IsPage(future.rows, after, limit, reply.rows)
    {
      var fails := future.NextFails();
      future := future.Ahead();
      PageOfIsPage(future.rows, after, limit);
      reply := if fails then PageFailed else PageRows(PageOf(future.rows, after, limit));
    }

    method Get(id: int) returns (reply: GetReply)
      requires future.Valid()
      modifies this
      ensures future == old(future).Ahead()
      ensures reply.Got? <==> !old(future).NextFails() && Row(id, true) in future.rows
      ensures reply.NotFound? <==>
        !old(future).NextFails() && Row(id, true) !in future.rows && Row(id, false) !in future.rows
    {
      var fails := future.NextFails();
      future := future.Ahead();
      reply := if !fails && Row(id, true) in future.rows then Got
               else if fails || Row(id, false) in future.rows then Unreadable
               else NotFound;
    }
  }
}
