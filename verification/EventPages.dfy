/**
 Reading the log back: the server's page of readable events. Rows may be
 committed, below rows that are already there too, before every read of the
 store.
 */
module EventPages {
  import opened Basics
  import opened EventLogs

  // ----------------------------------------------------------------- the rows

  function Filter(rows: seq<Row>, p: Row -> bool): seq<Row> {
    if rows == [] then [] else (if p(rows[0]) then [rows[0]] else []) + Filter(rows[1..], p)
  }

  lemma {:induction false} FilterHolds(rows: seq<Row>, p: Row -> bool)
    ensures forall r :: r in Filter(rows, p) <==> r in rows && p(r)
  {
    if rows != [] {
      assert rows == [rows[0]] + rows[1..];
      FilterHolds(rows[1..], p);
    }
  }

  lemma {:induction false} FilterSorted(rows: seq<Row>, p: Row -> bool)
    requires Sorted(rows)
    ensures Sorted(Filter(rows, p))
  {
    if rows != [] {
      var kept := Filter(rows[1..], p);
      FilterSorted(rows[1..], p);
      FilterHolds(rows[1..], p);
      assert forall i :: 0 <= i < |kept| ==> kept[i] in kept;
    }
  }

  /** What the store holds now and what each read to come will meet; `faults`
      counts the reads that failed. */
  class Store {
    var future: Future
    ghost var faults: nat

    constructor (future: Future)
      ensures this.future == future && faults == 0
    {
      this.future := future;
      faults := 0;
    }

    method ListMatching(matches: Row -> bool, after: int, limit: nat) returns (reply: PageReply)
      requires future.Valid() && limit > 0
      modifies this
      ensures future == old(future).Ahead() && faults == old(faults) + if reply.PageFailed? then 1 else 0
      ensures reply.PageFailed? <==> old(future).NextFails()
      ensures reply.PageRows? ==>
        && IsPage(Filter(future.rows, matches), after, limit, reply.rows)
        && reply.rows == PageOf(Filter(future.rows, matches), after, limit)
    {
      var fails := future.NextFails();
      future := future.Ahead();
      faults := faults + if fails then 1 else 0;
      FilterSorted(future.rows, matches);
      PageOfIsPage(Filter(future.rows, matches), after, limit);
      reply := if fails then PageFailed else PageRows(PageOf(Filter(future.rows, matches), after, limit));
    }

    /** Time goes by without a read. */
    method Elapse()
      modifies this`future
      ensures future == old(future).Ahead()
    {
      future := future.Ahead();
    }
  }

  // ---------------------------------------------------------- part of the walk

  /** The shape's filters, which the store applies, and the visibility check,
      which the server applies to each row and which may fail on it: a walk
      checks a row at most once. */
  datatype Query = Query(matches: Row -> bool, readable: Row -> bool, unchecked: Row -> bool) {
    predicate Wants(r: Row) {
      matches(r) && readable(r)
    }

    /** A check fails on some row of the log. */
    ghost predicate FailsOn(rows: seq<Row>) {
      exists r :: r in rows && matches(r) && unchecked(r)
    }
  }

  /** `out` is the walk from `start` to `cursor` in the `n` reads since `begin`:
      wanted rows in id order, and when they were read. `read(id)` is the read
      whose page went past `id`; reads go upwards, a wanted row is in the walk
      exactly when it had committed by the read of its page, and no row passed
      had a check that fails. */
  ghost predicate Walked(begin: Future, n: nat, read: int -> nat, q: Query, start: int, cursor: int, out: seq<Row>) {
    && Sorted(out)
    && start <= cursor
    && (forall r :: r in out ==> q.Wants(r) && start < r.id <= cursor)
    && (forall i, j :: start < i <= j <= cursor ==> read(i) <= read(j) <= n)
    && (forall r: Row {:trigger begin.After(read(r.id))} :: start < r.id <= cursor ==>
          && (q.Wants(r) ==> (r in out <==> r in begin.After(read(r.id)).rows))
          && (q.matches(r) && r in begin.After(read(r.id)).rows ==> !q.unchecked(r)))
  }

  /** Nothing that was there at `first` is left above `start`. */
  ghost predicate Complete(first: seq<Row>, q: Query, start: int, out: seq<Row>) {
    forall r :: r in first && q.Wants(r) && start < r.id ==> r in out
  }

  /** A row of the store page up to its `k`th is among the `k` taken. */
  lemma Taken(page: seq<Row>, k: nat, r: Row)
    requires Sorted(page) && 0 < k <= |page| && r in page && r.id <= page[k - 1].id
    ensures r in page[..k]
  {
    var j :| 0 <= j < |page| && page[j] == r;
    assert page[..k][j] == r;
  }

  lemma TakenSorted(page: seq<Row>, k: nat)
    requires Sorted(page) && 0 < k <= |page|
    ensures Sorted(page[..k])
    ensures forall r :: r in page[..k] ==> r in page && r.id <= page[k - 1].id
  {
  }

  /** A row above the cursor is on the page or above all of it. */
  lemma OnPage(rows: seq<Row>, cursor: int, limit: nat, page: seq<Row>, r: Row)
    requires IsPage(rows, cursor, limit, page) && r in rows && r.id > cursor
    ensures r in page || (|page| == limit && page != [] && r.id > page[|page| - 1].id)
  {
  }

  lemma {:induction false} AfterGrows(f: Future, m: nat, n: nat)
    requires f.Valid() && m <= n
    ensures Grows(f.After(m).rows, f.After(n).rows)
    decreases n
  {
    if m < n {
      AfterGrows(f, m, n - 1);
      f.AfterKeeps(n - 1);
    }
  }

  /** What a walk holds had committed by its end, and what had at its beginning
      it holds. */
  lemma WalkHolds(begin: Future, n: nat, read: int -> nat, q: Query, start: int, cursor: int, out: seq<Row>)
    requires begin.Valid() && Walked(begin, n, read, q, start, cursor, out)
    ensures forall r :: r in out ==> r in begin.After(n).rows
    ensures forall r :: r in begin.rows && q.Wants(r) && start < r.id <= cursor ==> r in out
  {
    forall r: Row | q.Wants(r) && start < r.id <= cursor
      ensures r in out ==> r in begin.After(n).rows
      ensures r in begin.rows ==> r in out
    {
      var k := read(r.id);
      AfterGrows(begin, k, n);
      AfterGrows(begin, 0, k);
      assert r in out <==> r in begin.After(k).rows;
    }
  }

  /** One read more, and the first `k` rows of its page carry the walk to the last
      of them. */
  lemma WalkOn(begin: Future, n: nat, read: int -> nat, q: Query, start: int, cursor: int, out: seq<Row>,
               page: seq<Row>, limit: nat, k: nat) returns (later: int -> nat)
    requires Walked(begin, n, read, q, start, cursor, out)
    requires IsPage(Filter(begin.After(n + 1).rows, q.matches), cursor, limit, page) && 0 < k <= |page|
    requires forall i :: 0 <= i < k ==> !q.unchecked(page[i])
    ensures Walked(begin, n + 1, later, q, start, page[k - 1].id, out + Filter(page[..k], q.readable))
  {
    later := id => if id <= cursor then read(id) else n + 1;
    var rows := begin.After(n + 1).rows;
    var kept := Filter(page[..k], q.readable);
    TakenSorted(page, k);
    FilterSorted(page[..k], q.readable);
    FilterHolds(page[..k], q.readable);
    FilterHolds(rows, q.matches);
    SortedConcat(out, kept, cursor);
    assert page[k - 1] in page;
    forall r: Row | start < r.id <= page[k - 1].id
      ensures q.Wants(r) ==> (r in out + kept <==> r in begin.After(later(r.id)).rows)
      ensures q.matches(r) && r in begin.After(later(r.id)).rows ==> !q.unchecked(r)
    {
      if r.id > cursor && r in rows && q.matches(r) {
        OnPage(Filter(rows, q.matches), cursor, limit, page, r);
        Taken(page, k, r);
      }
    }
  }

  /** A store page below its limit ends the walk. */
  lemma WalkEnds(begin: Future, n: nat, read: int -> nat, q: Query, start: int, cursor: int, out: seq<Row>,
                 page: seq<Row>, limit: nat)
    requires begin.Valid() && Walked(begin, n, read, q, start, cursor, out)
    requires IsPage(Filter(begin.After(n + 1).rows, q.matches), cursor, limit, page) && |page| < limit
    ensures Complete(begin.rows, q, start, out + Filter(page, q.readable))
  {
    var rows := begin.After(n + 1).rows;
    WalkHolds(begin, n, read, q, start, cursor, out);
    AfterGrows(begin, 0, n + 1);
    FilterHolds(page, q.readable);
    FilterHolds(rows, q.matches);
    forall r | r in begin.rows && q.Wants(r) && start < r.id
      ensures r in out + Filter(page, q.readable)
    {
      if r.id > cursor {
        OnPage(Filter(rows, q.matches), cursor, limit, page, r);
      }
    }
  }

  /** A walk is one up to its last row, and with reads that come after it. */
  lemma WalkShrinks(begin: Future, n: nat, m: nat, read: int -> nat, q: Query, start: int, cursor: int, out: seq<Row>)
    requires Walked(begin, n, read, q, start, cursor, out) && n <= m
    ensures Walked(begin, m, read, q, start, cursor, out)
    ensures Walked(begin, m, read, q, start, LastId(out, start), out)
  {
    if out != [] {
      assert out[|out| - 1] in out;
      forall r | r in out ensures r.id <= out[|out| - 1].id {
        var j :| 0 <= j < |out| && out[j] == r;
      }
    }
  }

  lemma {:induction false} AfterAdds(f: Future, m: nat, n: nat)
    ensures f.After(m).After(n) == f.After(m + n)
  {
    if n > 0 {
      AfterAdds(f, m, n - 1);
    }
  }

  /** A walk goes on where another has ended. */
  lemma WalkJoins(begin: Future, n: nat, read: int -> nat, q: Query, start: int, cursor: int, out: seq<Row>,
                  m: nat, pageRead: int -> nat, end: int, page: seq<Row>) returns (later: int -> nat)
    requires Walked(begin, n, read, q, start, cursor, out) && Walked(begin.After(n), m, pageRead, q, cursor, end, page)
    ensures Walked(begin, n + m, later, q, start, end, out + page)
  {
    later := id => if id <= cursor then read(id) else n + pageRead(id);
    SortedConcat(out, page, cursor);
    forall r: Row | start < r.id <= end
      ensures q.Wants(r) ==> (r in out + page <==> r in begin.After(later(r.id)).rows)
      ensures q.matches(r) && r in begin.After(later(r.id)).rows ==> !q.unchecked(r)
    {
      AfterAdds(begin, n, pageRead(r.id));
      assert r.id > cursor && q.Wants(r) ==> (r in page <==> r in begin.After(n).After(pageRead(r.id)).rows);
    }
  }

  lemma CompleteJoins(begin: Future, n: nat, read: int -> nat, q: Query, start: int, cursor: int, out: seq<Row>,
                      page: seq<Row>)
    requires begin.Valid() && Walked(begin, n, read, q, start, cursor, out)
    requires Complete(begin.After(n).rows, q, cursor, page)
    ensures Complete(begin.rows, q, start, out + page)
  {
    WalkHolds(begin, n, read, q, start, cursor, out);
    AfterGrows(begin, 0, n);
  }

  // --------------------------------------------------------- the server's page

  lemma {:induction false} FilterConcat(a: seq<Row>, b: seq<Row>, p: Row -> bool)
    ensures Filter(a + b, p) == Filter(a, p) + Filter(b, p)
  {
    if a == [] {
      assert a + b == b;
    } else {
      assert (a + b)[0] == a[0] && (a + b)[1..] == a[1..] + b;
      FilterConcat(a[1..], b, p);
      Appended(if p(a[0]) then [a[0]] else [], Filter(a[1..], p), Filter(b, p));
    }
  }

  lemma FilterSnoc(page: seq<Row>, k: nat, p: Row -> bool)
    requires k < |page|
    ensures Filter(page[..k + 1], p) == Filter(page[..k], p) + if p(page[k]) then [page[k]] else []
  {
    assert page[..k + 1] == page[..k] + [page[k]];
    FilterConcat(page[..k], [page[k]], p);
  }

  /** Keep the readable rows of a store page until the answer is full or a check
      fails. */
  method Collect(out: seq<Row>, page: seq<Row>, q: Query, limit: nat) returns (all: seq<Row>, k: nat, failed: bool)
    requires |out| < limit
    ensures failed ==> k < |page| && q.unchecked(page[k])
    ensures k <= |page| && forall i :: 0 <= i < k ==> !q.unchecked(page[i])
    ensures k <= |page| && all == out + Filter(page[..k], q.readable) && |all| <= limit
    ensures |all| == limit ==> k > 0 && all[limit - 1] == page[k - 1]
    ensures |all| < limit && !failed ==> k == |page|
  {
    all, k, failed := out, 0, false;
    assert out + [] == out;
    while k < |page|
      invariant k <= |page| && |all| < limit && all == out + Filter(page[..k], q.readable) && !failed
      invariant forall i :: 0 <= i < k ==> !q.unchecked(page[i])
    {
      if q.unchecked(page[k]) {
        failed := true;
        return;
      }
      FilterSnoc(page, k, q.readable);
      if q.readable(page[k]) {
        all := all + [page[k]];
        if |all| >= limit {
          k := k + 1;
          return;
        }
      }
      k := k + 1;
    }
  }

  /** A page of the log for a caller, in `n` reads since the request came. A page
      below its limit leaves nothing behind that was committed then. */
  ghost predicate IsAnswer(begin: Future, n: nat, read: int -> nat, q: Query, after: int, limit: nat, page: seq<Row>) {
    && |page| <= limit
    && Walked(begin, n, read, q, after, LastId(page, after), page)
    && (|page| < limit ==> Complete(begin.rows, q, after, page))
  }

  /** Rows left to read, for termination: reads that meet a commit, then rows. */
  function Left(future: Future, cursor: int): nat {
    CountAbove(future.rows, cursor)
  }

  lemma LeftDrops(future: Future, q: Query, cursor: int, limit: nat, page: seq<Row>)
    requires IsPage(Filter(future.rows, q.matches), cursor, limit, page) && page != []
    ensures cursor < page[|page| - 1].id && Left(future, page[|page| - 1].id) < Left(future, cursor)
  {
    var r := page[|page| - 1];
    assert r in page;
    FilterHolds(future.rows, q.matches);
    CountAboveDrops(future.rows, cursor, r.id, r);
  }

  datatype Scan = ScanFailed | Answered(page: seq<Row>) | Scanning(cursor: int, out: seq<Row>)

  /** Where a scan stands: at an answer, or on a walk. */
  ghost predicate Standing(begin: Future, n: nat, read: int -> nat, q: Query, after: int, limit: nat, s: Scan) {
    match s
    case ScanFailed => true
    case Answered(page) => IsAnswer(begin, n, read, q, after, limit, page)
    case Scanning(cursor, out) => |out| < limit && Walked(begin, n, read, q, after, cursor, out)
  }

  /** A walk with `before` goes on with `all`, from the first `k` rows of a store
      page of `rows`. */
  ghost predicate Goes(rows: seq<Row>, q: Query, cursor: int, limit: nat, before: seq<Row>, page: seq<Row>, k: nat,
                       all: seq<Row>) {
    && IsPage(Filter(rows, q.matches), cursor, limit, page)
    && k <= |page| && all == before + Filter(page[..k], q.readable) && |all| <= limit
    && (|all| == limit ==> k > 0 && all[limit - 1] == page[k - 1])
    && (|all| < limit ==> k == |page|)
    && (forall i :: 0 <= i < k ==> !q.unchecked(page[i]))
  }

  /** What a store page makes of a walk, once `all` is taken from its first `k`
      rows. */
  function Taking(page: seq<Row>, limit: nat, all: seq<Row>): Scan {
    if |all| >= limit || page == [] || |page| < limit then Answered(all) else Scanning(page[|page| - 1].id, all)
  }

  lemma PageScanned(begin: Future, n: nat, read: int -> nat, q: Query, after: int, limit: nat,
                    was: int, before: seq<Row>, page: seq<Row>, k: nat, out: seq<Row>) returns (later: int -> nat)
    requires begin.Valid() && Walked(begin, n, read, q, after, was, before) && limit > 0
    requires Goes(begin.After(n + 1).rows, q, was, limit, before, page, k, out)
    ensures Standing(begin, n + 1, later, q, after, limit, Taking(page, limit, out))
    ensures Taking(page, limit, out).Scanning? ==>
      Left(begin.After(n + 1), page[|page| - 1].id) < Left(begin.After(n + 1), was)
  {
    if page == [] {
      later := read;
      WalkEnds(begin, n, read, q, after, was, before, page, limit);
      assert out == before;
      WalkShrinks(begin, n, n + 1, read, q, after, was, out);
    } else {
      later := WalkOn(begin, n, read, q, after, was, before, page, limit, k);
      WalkShrinks(begin, n + 1, n + 1, later, q, after, page[k - 1].id, out);
      if |out| < limit {
        assert page[..k] == page;
        if |page| < limit {
          WalkEnds(begin, n, read, q, after, was, before, page, limit);
        } else {
          LeftDrops(begin.After(n + 1), q, was, limit, page);
        }
      }
    }
  }

  /** The next read succeeds and meets fewer rows than a page holds, all of them
      wanted, above the cursor and checked without a failure. */
  ghost predicate AllNext(future: Future, q: Query, after: int, limit: nat) {
    && !future.NextFails() && |future.Ahead().rows| < limit
    && forall r {:trigger q.unchecked(r)} :: r in future.Ahead().rows ==> r.id > after && q.Wants(r) && !q.unchecked(r)
  }

  lemma {:induction false} FilterAll(rows: seq<Row>, p: Row -> bool)
    requires forall r :: r in rows ==> p(r)
    ensures Filter(rows, p) == rows
  {
    if rows != [] {
      assert rows[0] in rows;
      FilterAll(rows[1..], p);
    }
  }

  /** Then it is the page, and all of it is taken. */
  lemma AllTaken(future: Future, q: Query, after: int, limit: nat, page: seq<Row>, all: seq<Row>, k: nat)
    requires AllNext(future, q, after, limit) && page == PageOf(Filter(future.Ahead().rows, q.matches), after, limit)
    requires k <= |page| && all == [] + Filter(page[..k], q.readable) && (|all| < limit ==> k == |page|)
    ensures page == all == future.Ahead().rows
  {
    var rows := future.Ahead().rows;
    forall r | r in rows ensures r.id > after && q.Wants(r) {
      assert !q.unchecked(r);
    }
    FilterAll(rows, q.matches);
    assert FirstAbove(rows, after) == 0 by {
      assert rows != [] ==> rows[0] in rows;
    }
    assert page == rows;
    FilterAll(page[..k], q.readable);
  }

  lemma AllChecked(future: Future, q: Query, after: int, limit: nat, page: seq<Row>, k: nat)
    requires page == PageOf(Filter(future.Ahead().rows, q.matches), after, limit) && k < |page| && q.unchecked(page[k])
    ensures !AllNext(future, q, after, limit)
  {
    FilterHolds(future.Ahead().rows, q.matches);
    assert page[k] in Filter(future.Ahead().rows, q.matches);
  }

  lemma CheckFailed(rows: seq<Row>, q: Query, after: int, limit: nat, page: seq<Row>, k: nat)
    requires IsPage(Filter(rows, q.matches), after, limit, page) && k < |page| && q.unchecked(page[k])
    ensures q.FailsOn(rows)
  {
    FilterHolds(rows, q.matches);
    assert page[k] in page;
  }

  /** Read a store page and keep what is wanted of it. */
  method ReadOneMore(store: Store, q: Query, cursor: int, limit: nat, out: seq<Row>)
    returns (failed: bool, page: seq<Row>, all: seq<Row>, ghost k: nat)
    requires store.future.Valid() && limit > |out|
    modifies store
    ensures store.future == old(store.future).Ahead()
    ensures failed ==> store.faults > old(store.faults) || q.FailsOn(store.future.rows)
    ensures !failed ==> store.faults == old(store.faults)
    ensures !failed ==> Goes(store.future.rows, q, cursor, limit, out, page, k, all)
    ensures out == [] && AllNext(old(store.future), q, cursor, limit) ==> !failed && page == all == store.future.rows
  {
    page, all, k := [], [], 0;
    var reply := store.ListMatching(q.matches, cursor, limit);
    if reply.PageFailed? {
      return true, page, all, k;
    }
    page := reply.rows;
    all, k, failed := Collect(out, page, q, limit);
    if failed {
      CheckFailed(store.future.rows, q, cursor, limit, page, k);
      AllChecked(old(store.future), q, cursor, limit, page, k);
    } else if out == [] && AllNext(old(store.future), q, cursor, limit) {
      AllTaken(old(store.future), q, cursor, limit, page, all, k);
    }
  }

  method ScanPage(store: Store, ghost begin: Future, ghost n: nat, ghost read: int -> nat, q: Query, after: int,
                  limit: nat, cursor: int, out: seq<Row>)
    returns (s: Scan, ghost later: int -> nat)
    requires begin.Valid() && store.future == begin.After(n)
    requires Standing(begin, n, read, q, after, limit, Scanning(cursor, out))
    modifies store
    ensures store.future == begin.After(n + 1)
    ensures s.ScanFailed? ==> store.faults > old(store.faults) || q.FailsOn(store.future.rows)
    ensures !s.ScanFailed? ==> store.faults == old(store.faults)
    ensures Standing(begin, n + 1, later, q, after, limit, s)
    ensures s.Scanning? ==> Left(store.future, s.cursor) < Left(store.future, cursor)
    ensures out == [] && AllNext(old(store.future), q, cursor, limit) ==> s == Answered(store.future.rows)
  {
    begin.AfterKeeps(n);
    var failed, page, all;
    ghost var k;
    failed, page, all, k := ReadOneMore(store, q, cursor, limit, out);
    if failed {
      return ScanFailed, read;
    }
    later := PageScanned(begin, n, read, q, after, limit, cursor, out, page, k, all);
    s := Taking(page, limit, all);
  }

  /** The server's page: store pages until `limit` readable rows or the end, so
      that hidden rows never make a page short. */
  method ListEventsForShape(store: Store, q: Query, after: int, limit: nat)
    returns (r: Result<seq<Row>, ()>, ghost n: nat, ghost read: int -> nat)
    requires store.future.Valid() && limit > 0
    modifies store
    ensures n > 0 && store.future == old(store.future).After(n)
    ensures r.Err? ==> store.faults > old(store.faults) || q.FailsOn(store.future.rows)
    ensures r.Ok? ==> store.faults == old(store.faults)
    ensures r.Ok? ==> IsAnswer(old(store.future), n, read, q, after, limit, r.value)
    ensures AllNext(old(store.future), q, after, limit) ==> r == Ok(store.future.rows) && n == 1
  {
    ghost var begin := store.future;
    ghost var whole := AllNext(begin, q, after, limit);
    var s := Scanning(after, []);
    n := 0;
    read := id => 0;
    while s.Scanning?
      invariant store.future == begin.After(n)
      invariant n == 0 ==> s == Scanning(after, [])
      invariant Standing(begin, n, read, q, after, limit, s)
      invariant s.ScanFailed? ==> store.faults > old(store.faults) || q.FailsOn(store.future.rows)
      invariant !s.ScanFailed? ==> store.faults == old(store.faults)
      invariant whole && n > 0 ==> s == Answered(store.future.rows) && n == 1
      decreases s.Scanning?, |store.future.turns|, if s.Scanning? then Left(store.future, s.cursor) else 0
    {
      begin.AfterKeeps(n);
      s, read := ScanPage(store, begin, n, read, q, after, limit, s.cursor, s.out);
      n := n + 1;
    }
    r := if s.Answered? then Ok(s.page) else Err(());
  }
}
