/**
 The client's side of the log: paging through the events endpoint until a
 short page, and cutting over to a subscription that replays from the last
 event delivered.
 */
module FollowLogs {
  import opened Basics
  import opened EventLogs
  import opened EventPages

  const MAX_PAGE_SIZE: nat := 500

  /** The limit a paging helper asks for. */
  function PageSize(n: int): (size: nat)
    ensures 1 <= size <= MAX_PAGE_SIZE
    ensures 1 <= n <= MAX_PAGE_SIZE ==> size == n
    ensures n > MAX_PAGE_SIZE ==> size == MAX_PAGE_SIZE
    ensures n <= 0 ==> size == 100
  {
    if n <= 0 then 100 else Min(n, MAX_PAGE_SIZE)
  }

  /** The server's clamp on a requested limit. */
  function Clamp(limit: int): (size: nat)
    ensures 1 <= size <= MAX_PAGE_SIZE
    ensures 1 <= limit <= MAX_PAGE_SIZE ==> size == limit
    ensures limit > MAX_PAGE_SIZE ==> size == MAX_PAGE_SIZE
    ensures limit < 1 ==> size == 1
  {
    if limit < 1 then 1 else Min(limit, MAX_PAGE_SIZE)
  }

  /** `GET /workspaces/{id}/events`. */
  method GetEvents(store: Store, q: Query, after: int, limit: int)
    returns (r: Result<seq<Row>, ()>, ghost n: nat, ghost read: int -> nat)
    requires store.future.Valid()
    modifies store
    ensures store.future == old(store.future).After(n)
    ensures r.Err? ==> after < 0 || store.faults > old(store.faults) || q.FailsOn(store.future.rows)
    ensures r.Ok? ==> after >= 0 && n > 0 && store.faults == old(store.faults)
    ensures r.Ok? ==> IsAnswer(old(store.future), n, read, q, after, Clamp(limit), r.value)
    ensures after >= 0 && AllNext(old(store.future), q, after, Clamp(limit)) ==> r == Ok(store.future.rows) && n == 1
  {
    if after < 0 {
      return Err(()), 0, id => 0;
    }
    r, n, read := ListEventsForShape(store, q, after, Clamp(limit));
  }

  // ------------------------------------------------------------- the backfill

  /** Where a walk stands after some pages: everything from `start` to the
      cursor, which is the last row delivered. */
  ghost predicate Upto(begin: Future, n: nat, read: int -> nat, q: Query, start: int, cursor: int, out: seq<Row>) {
    cursor == LastId(out, start) && Walked(begin, n, read, q, start, cursor, out)
  }

  lemma UptoLast(begin: Future, n: nat, read: int -> nat, q: Query, start: int, cursor: int, out: seq<Row>)
    requires Upto(begin, n, read, q, start, cursor, out)
    ensures Upto(begin, n, read, q, start, LastId(out, start), out) && cursor == LastId(out, start)
  {
  }

  lemma PrefixWalked(begin: Future, n: nat, read: int -> nat, q: Query, start: int, page: seq<Row>, k: nat)
    requires Walked(begin, n, read, q, start, LastId(page, start), page) && k <= |page|
    ensures Walked(begin, n, read, q, start, LastId(page[..k], start), page[..k])
  {
    if k > 0 {
      TakenSorted(page, k);
      assert page[k - 1] in page && page[k - 1].id <= page[|page| - 1].id;
      forall r: Row | q.Wants(r) && start < r.id <= page[k - 1].id
        ensures r in page[..k] <==> r in begin.After(read(r.id)).rows
      {
        if r in page {
          Taken(page, k, r);
        }
      }
    }
  }

  /** The first `k` rows of a page join the walk; all of a short page complete
      it. */
  lemma PageJoins(begin: Future, n: nat, read: int -> nat, q: Query, start: int, cursor: int, out: seq<Row>,
                  m: nat, pageRead: int -> nat, limit: nat, page: seq<Row>, k: nat) returns (later: int -> nat)
    requires begin.Valid() && Upto(begin, n, read, q, start, cursor, out)
    requires IsAnswer(begin.After(n), m, pageRead, q, cursor, limit, page) && k <= |page|
    ensures Upto(begin, n + m, later, q, start, LastId(page[..k], cursor), out + page[..k])
    ensures k == |page| < limit ==> Complete(begin.rows, q, start, out + page[..k])
  {
    PrefixWalked(begin.After(n), m, pageRead, q, cursor, page, k);
    later := WalkJoins(begin, n, read, q, start, cursor, out, m, pageRead, LastId(page[..k], cursor), page[..k]);
    if k == |page| < limit {
      assert page[..k] == page;
      CompleteJoins(begin, n, read, q, start, cursor, out, page);
    }
  }

  lemma WholePageJoins(begin: Future, n: nat, read: int -> nat, q: Query, start: int, cursor: int, out: seq<Row>,
                       m: nat, pageRead: int -> nat, limit: nat, page: seq<Row>) returns (later: int -> nat)
    requires begin.Valid() && Upto(begin, n, read, q, start, cursor, out)
    requires IsAnswer(begin.After(n), m, pageRead, q, cursor, limit, page)
    ensures Upto(begin, n + m, later, q, start, LastId(page, cursor), out + page)
    ensures |page| < limit ==> Complete(begin.rows, q, start, out + page)
  {
    later := WalkJoins(begin, n, read, q, start, cursor, out, m, pageRead, LastId(page, cursor), page);
    if |page| < limit {
      CompleteJoins(begin, n, read, q, start, cursor, out, page);
    }
  }

  lemma PageAdvances(mid: Future, n: nat, read: int -> nat, q: Query, cursor: int, limit: nat, page: seq<Row>)
    requires mid.Valid() && IsAnswer(mid, n, read, q, cursor, limit, page) && page != []
    ensures Left(mid.After(n), LastId(page, cursor)) < Left(mid.After(n), cursor)
  {
    var r := page[|page| - 1];
    assert r in page;
    WalkHolds(mid, n, read, q, cursor, r.id, page);
    CountAboveDrops(mid.After(n).rows, cursor, r.id, r);
  }

  lemma {:induction false} TurnsDrop(f: Future, n: nat)
    ensures |f.After(n).turns| <= |f.turns|
    ensures n > 0 && f.turns != [] ==> |f.After(n).turns| < |f.turns|
    ensures f.turns == [] ==> f.After(n) == f
  {
    if n > 0 {
      TurnsDrop(f, n - 1);
    }
  }

  /** Hand a page to the callback, moving the cursor with it. */
  method Deliver(page: seq<Row>, after: int, out: seq<Row>) returns (cursor: int, all: seq<Row>)
    requires Sorted(page) && forall r :: r in page ==> r.id > after
    ensures cursor == LastId(page, after) && all == out + page
  {
    cursor, all := after, out;
    for i := 0 to |page|
      invariant cursor == LastId(page[..i], after) && all == out + page[..i]
    {
      assert page[i] in page && page[..i + 1] == page[..i] + [page[i]];
      if page[i].id > cursor {
        cursor := page[i].id;
      }
      all := all + [page[i]];
    }
    assert page[..|page|] == page;
  }

  /** The rows of an answer lie above its cursor, in order. */
  lemma AnswerAbove(begin: Future, n: nat, read: int -> nat, q: Query, after: int, limit: nat, page: seq<Row>)
    requires IsAnswer(begin, n, read, q, after, limit, page)
    ensures Sorted(page) && forall r :: r in page ==> r.id > after
  {
  }

  /** A turn of a walk's loop has left fewer commits to come, or fewer rows. */
  predicate Nearer(was: Future, after: int, now: Future, cursor: int) {
    |now.turns| < |was.turns| || (now == was && Left(now, cursor) < Left(was, after))
  }

  /** The next page of a walk, and that it brings the walk closer to its end. */
  method NextPage(store: Store, q: Query, after: int, limit: nat)
    returns (r: Result<seq<Row>, ()>, ghost m: nat, ghost read: int -> nat)
    requires store.future.Valid() && 1 <= limit <= MAX_PAGE_SIZE
    modifies store
    ensures store.future == old(store.future).After(m)
    ensures r.Err? ==> after < 0 || store.faults > old(store.faults) || q.FailsOn(store.future.rows)
    ensures r.Ok? ==> store.faults == old(store.faults)
    ensures r.Ok? ==> m > 0 && after >= 0 && IsAnswer(old(store.future), m, read, q, after, limit, r.value)
    ensures after >= 0 && AllNext(old(store.future), q, after, limit) ==> r == Ok(store.future.rows) && m == 1
    ensures r.Ok? && r.value != [] ==> Nearer(old(store.future), after, store.future, LastId(r.value, after))
  {
    ghost var mid := store.future;
    r, m, read := GetEvents(store, q, after, limit);
    TurnsDrop(mid, m);
    if r.Ok? && r.value != [] {
      PageAdvances(mid, m, read, q, after, limit, r.value);
    }
  }

  /** The limit that `FollowLog` asks for. */
  function BackfillSize(pageLimit: int): (size: nat)
    ensures 1 <= size <= MAX_PAGE_SIZE
    ensures 1 <= pageLimit <= MAX_PAGE_SIZE ==> size == pageLimit
    ensures pageLimit <= 0 ==> size == 100
  {
    PageSize(Min(pageLimit, MAX_PAGE_SIZE))
  }

  /** One turn of the backfill's loop. */
  method BackfillTurn(store: Store, ghost begin: Future, ghost n: nat, ghost read: int -> nat, q: Query,
                      ghost start: int, after: int, out: seq<Row>, limit: nat)
    returns (size: Option<nat>, cursor: int, all: seq<Row>, ghost m: nat, ghost later: int -> nat)
    requires begin.Valid() && store.future == begin.After(n) && Upto(begin, n, read, q, start, after, out)
    requires 1 <= limit <= MAX_PAGE_SIZE
    modifies store
    ensures store.future == begin.After(n + m) && Upto(begin, n + m, later, q, start, cursor, all)
    ensures size.None? ==> after < 0 || store.faults > old(store.faults) || q.FailsOn(store.future.rows)
    ensures size.Some? ==> store.faults == old(store.faults)
    ensures size.Some? ==> after >= 0 && m > 0
    ensures size.Some? && size.value < limit ==> Complete(begin.rows, q, start, all)
    ensures size.Some? && size.value > 0 ==> Nearer(old(store.future), after, store.future, cursor)
    ensures after >= 0 && AllNext(old(store.future), q, after, limit) ==>
      size.Some? && size.value < limit && m == 1 && all == out + store.future.rows
  {
    begin.AfterKeeps(n);
    ghost var mid := store.future;
    var page;
    ghost var pageRead;
    page, m, pageRead := NextPage(store, q, after, limit);
    AfterAdds(begin, n, m);
    if page.Err? {
      WalkShrinks(begin, n, n + m, read, q, start, after, out);
      return None, after, out, m, read;
    }
    AnswerAbove(mid, m, pageRead, q, after, limit, page.value);
    later := WholePageJoins(begin, n, read, q, start, after, out, m, pageRead, limit, page.value);
    cursor, all := Deliver(page.value, after, out);
    size := Some(|page.value|);
  }

  /** The backfill's loop, from wherever it stands. */
  method BackfillOn(store: Store, ghost begin: Future, ghost n: nat, ghost read: int -> nat, q: Query,
                    ghost start: int, cursor: int, before: seq<Row>, limit: nat)
    returns (r: Result<int, ()>, out: seq<Row>, ghost m: nat, ghost later: int -> nat)
    requires begin.Valid() && store.future == begin.After(n) && Upto(begin, n, read, q, start, cursor, before)
    requires 1 <= limit <= MAX_PAGE_SIZE && start >= 0
    modifies store
    ensures store.future == begin.After(m) && Upto(begin, m, later, q, start, LastId(out, start), out)
    ensures r.Err? ==> store.faults > old(store.faults) || q.FailsOn(store.future.rows)
    ensures r.Ok? ==> store.faults == old(store.faults)
    ensures r.Ok? ==> r.value == LastId(out, start) && Complete(begin.rows, q, start, out)
  {
    var after := cursor;
    out, m, later := before, n, read;
    r := Err(());
    while true
      invariant store.future == begin.After(m) && Upto(begin, m, later, q, start, after, out)
      invariant store.faults == old(store.faults) && r.Err?
      decreases |store.future.turns|, Left(store.future, after)
    {
      var size;
      ghost var k;
      size, after, out, k, later := BackfillTurn(store, begin, m, later, q, start, after, out, limit);
      m := m + k;
      if size.None? {
        break;
      }
      if size.value == 0 || size.value < limit {
        r := Ok(after);
        break;
      }
    }
    UptoLast(begin, m, later, q, start, after, out);
  }

  /** The backfill of `FollowLog`: what it delivers is gapless to the cursor but
      for rows that committed after the read of their page, also when a request
      fails; when it ends, nothing that was committed at the start is left. */
  method Backfill(store: Store, q: Query, start: int, pageLimit: int)
    returns (r: Result<int, ()>, out: seq<Row>, ghost n: nat, ghost read: int -> nat)
    requires store.future.Valid()
    modifies store
    ensures store.future == old(store.future).After(n)
    ensures Upto(old(store.future), n, read, q, start, LastId(out, start), out)
    ensures r.Err? ==> start < 0 || store.faults > old(store.faults) || q.FailsOn(store.future.rows)
    ensures r.Ok? ==> store.faults == old(store.faults)
    ensures r.Ok? ==> start >= 0 && r.value == LastId(out, start) && Complete(old(store.future).rows, q, start, out)
    ensures start >= 0 && AllNext(old(store.future), q, start, BackfillSize(pageLimit)) ==>
      r.Ok? && out == store.future.rows && n == 1
  {
    ghost var begin := store.future;
    var limit := BackfillSize(pageLimit);
    var size, after;
    read := id => 0;
    size, after, out, n, read := BackfillTurn(store, begin, 0, read, q, start, start, [], limit);
    UptoLast(begin, n, read, q, start, after, out);
    if size.None? {
      r := Err(());
    } else if size.value < limit {
      r := Ok(after);
    } else {
      r, out, n, read := BackfillOn(store, begin, n, read, q, start, after, out, limit);
    }
  }

  // ------------------------------------------------ listing with a callback

  datatype Listing = Listed | ListingFailed | Refused

  /** The rows the callback saw: it refused none of them, or only the last. */
  ghost predicate Seen(out: seq<Row>, refuses: Row -> bool, refused: bool) {
    && (forall i :: 0 <= i < |out| - 1 ==> !refuses(out[i]))
    && (out != [] ==> refuses(out[|out| - 1]) == refused)
    && (refused ==> out != [])
  }

  lemma SeenOne(out: seq<Row>, refuses: Row -> bool, r: Row)
    requires Seen(out, refuses, false)
    ensures Seen(out + [r], refuses, refuses(r))
  {
  }

  /** Hand a page to a callback up to and including the first row it refuses. */
  method Feed(page: seq<Row>, after: int, out: seq<Row>, refuses: Row -> bool)
    returns (cursor: int, all: seq<Row>, stopped: bool, ghost k: nat)
    requires Sorted(page) && forall r :: r in page ==> r.id > after
    requires Seen(out, refuses, false)
    ensures k <= |page| && cursor == LastId(page[..k], after) && all == out + page[..k]
    ensures Seen(all, refuses, stopped)
    ensures !stopped ==> k == |page|
  {
    cursor, all, stopped, k := after, out, false, 0;
    for i := 0 to |page|
      invariant cursor == LastId(page[..i], after) && all == out + page[..i] && Seen(all, refuses, false)
    {
      assert page[i] in page && page[..i + 1] == page[..i] + [page[i]];
      if page[i].id > cursor {
        cursor := page[i].id;
      }
      SeenOne(all, refuses, page[i]);
      all := all + [page[i]];
      if refuses(page[i]) {
        return cursor, all, true, i + 1;
      }
    }
    k := |page|;
  }

  /** One turn of the listing's loop: a page, up to the first row refused. */
  method ListingTurn(store: Store, ghost begin: Future, ghost n: nat, ghost read: int -> nat, q: Query,
                     ghost start: int, after: int, out: seq<Row>, limit: nat, refuses: Row -> bool)
    returns (size: Option<nat>, cursor: int, all: seq<Row>, stopped: bool, ghost m: nat, ghost later: int -> nat)
    requires begin.Valid() && store.future == begin.After(n) && Upto(begin, n, read, q, start, after, out)
    requires 1 <= limit <= MAX_PAGE_SIZE && Seen(out, refuses, false)
    modifies store
    ensures store.future == begin.After(n + m) && Upto(begin, n + m, later, q, start, cursor, all)
    ensures Seen(all, refuses, stopped) && (stopped ==> size.Some?)
    ensures size.None? ==> after < 0 || store.faults > old(store.faults) || q.FailsOn(store.future.rows)
    ensures size.Some? ==> store.faults == old(store.faults)
    ensures size.Some? && size.value < limit && !stopped ==> Complete(begin.rows, q, start, all)
    ensures size.Some? && size.value > 0 && !stopped ==> Nearer(old(store.future), after, store.future, cursor)
  {
    begin.AfterKeeps(n);
    ghost var mid := store.future;
    var page;
    ghost var pageRead, k;
    page, m, pageRead := NextPage(store, q, after, limit);
    AfterAdds(begin, n, m);
    cursor, all, stopped, later, size := after, out, false, read, None;
    if page.Err? {
      WalkShrinks(begin, n, n + m, read, q, start, after, out);
    } else {
      AnswerAbove(mid, m, pageRead, q, after, limit, page.value);
      cursor, all, stopped, k := Feed(page.value, after, out, refuses);
      later := PageJoins(begin, n, read, q, start, after, out, m, pageRead, limit, page.value, k);
      WholeTaken(page.value, k, after);
      size := Some(|page.value|);
    }
  }

  lemma WholeTaken(page: seq<Row>, k: nat, after: int)
    requires k <= |page|
    ensures k == |page| ==> LastId(page[..k], after) == LastId(page, after)
  {
    assert k == |page| ==> page[..k] == page;
  }

  method ListEventsAll(store: Store, q: Query, start: int, pageLimit: int, refuses: Row -> bool)
    returns (r: Listing, out: seq<Row>, ghost n: nat, ghost read: int -> nat)
    requires store.future.Valid()
    modifies store
    ensures store.future == old(store.future).After(n)
    ensures Upto(old(store.future), n, read, q, start, LastId(out, start), out)
    ensures Seen(out, refuses, r.Refused?)
    ensures r.ListingFailed? ==> start < 0 || store.faults > old(store.faults) || q.FailsOn(store.future.rows)
    ensures !r.ListingFailed? ==> store.faults == old(store.faults)
    ensures r.Listed? ==> Complete(old(store.future).rows, q, start, out)
  {
    ghost var begin := store.future;
    var limit := PageSize(pageLimit);
    var after := start;
    out := [];
    n := 0;
    read := id => 0;
    while true
      invariant store.future == begin.After(n) && Upto(begin, n, read, q, start, after, out)
      invariant Seen(out, refuses, false) && store.faults == old(store.faults)
      decreases |store.future.turns|, Left(store.future, after)
    {
      var size, stopped;
      ghost var m;
      size, after, out, stopped, m, read := ListingTurn(store, begin, n, read, q, start, after, out, limit, refuses);
      n := n + m;
      if size.None? {
        r := ListingFailed;
        break;
      }
      if stopped {
        r := Refused;
        break;
      }
      if size.value < limit {
        r := Listed;
        break;
      }
    }
    UptoLast(begin, n, read, q, start, after, out);
  }

  // ---------------------------------------------- nothing commits meanwhile

  lemma AboveHolds(rows: seq<Row>, start: int, r: Row)
    requires Sorted(rows)
    ensures r in rows[FirstAbove(rows, start)..] <==> r in rows && r.id > start
  {
    var k := FirstAbove(rows, start);
    if r in rows && r.id > start {
      var i :| 0 <= i < |rows| && rows[i] == r;
      DroppedHolds(rows, k, i);
    }
    if r in rows[k..] {
      var i :| k <= i < |rows| && rows[i] == r;
      assert i > k ==> rows[k].id < rows[i].id;
    }
  }

  lemma DroppedHolds(rows: seq<Row>, k: nat, i: nat)
    requires k <= i < |rows|
    ensures rows[i] in rows[k..]
  {
    assert rows[k..][i - k] == rows[i];
  }

  /** On a log that stands still a complete walk is the wanted rows above the
      start: each of them, once, in id order. */
  lemma ExactlyOnce(begin: Future, n: nat, read: int -> nat, q: Query, start: int, cursor: int, out: seq<Row>)
    requires begin.Valid() && begin.Quiet()
    requires Walked(begin, n, read, q, start, cursor, out) && Complete(begin.rows, q, start, out)
    ensures out == Filter(begin.rows[FirstAbove(begin.rows, start)..], (r: Row) => q.Wants(r))
  {
    var above := begin.rows[FirstAbove(begin.rows, start)..];
    var wanted := Filter(above, (r: Row) => q.Wants(r));
    WalkHolds(begin, n, read, q, start, cursor, out);
    begin.AfterKeeps(n);
    FilterSorted(above, (r: Row) => q.Wants(r));
    FilterHolds(above, (r: Row) => q.Wants(r));
    forall r ensures r in out <==> r in wanted {
      AboveHolds(begin.rows, start, r);
    }
    SameRows(out, wanted);
  }

  // ------------------------------------------------------ asking for too much

  /** At most `MAX_PAGE_SIZE` asked for: a short page is the last one. */
  lemma ShortIsLast(rows: seq<Row>, after: int, limit: nat)
    requires Sorted(rows) && 1 <= limit <= MAX_PAGE_SIZE && |PageOf(rows, after, Clamp(limit))| < limit
    ensures forall r :: r in rows && r.id > after ==> r in PageOf(rows, after, Clamp(limit))
  {
    PageOfIsPage(rows, after, limit);
  }

  /** One more, and on every log with more rows than that the first page looks
      like the last: a walk asking so would end there, with rows left. */
  lemma AskingTooMuch(rows: seq<Row>, after: int, limit: nat)
    requires Sorted(rows) && limit > MAX_PAGE_SIZE && |rows| - FirstAbove(rows, after) > MAX_PAGE_SIZE
    ensures var page := PageOf(rows, after, Clamp(limit));
      |page| < limit && exists r :: r in rows && r.id > after && r !in page
  {
    var k := FirstAbove(rows, after);
    var page := PageOf(rows, after, Clamp(limit));
    var r := rows[k + MAX_PAGE_SIZE];
    assert r in rows && rows[k].id < r.id;
    forall i | 0 <= i < |page| ensures page[i] != r {
      assert page[i] == rows[k + i];
    }
  }

  // --------------------------------------------------------------- the cutover

  const REPLAY_LIMIT: nat := 500

  /** What a subscription can replay: a wanted row that decodes. */
  predicate Plays(q: Query, r: Row) {
    r.decodes && q.Wants(r)
  }

  /** The rows a replay from `after` sends. */
  function CaughtUp(rows: seq<Row>, q: Query, after: int): seq<Row> {
    Filter(PageOf(rows, after, REPLAY_LIMIT), (r: Row) => Plays(q, r))
  }

  /** The subscribe frame carries the cursor only when it is positive, and the
      server replays only then. */
  function Replayed(rows: seq<Row>, q: Query, after: int): seq<Row> {
    if after > 0 then CaughtUp(rows, q, after) else []
  }

  /** Owed to a subscriber whose cursor is `after`. */
  predicate Owed(rows: seq<Row>, q: Query, after: int, r: Row) {
    r in rows && r.id > after && Plays(q, r)
  }

  /** A replay sends wanted rows above its cursor in order, and all of them when
      it read fewer rows than it may. */
  lemma CaughtUpHolds(rows: seq<Row>, q: Query, after: int)
    requires Sorted(rows)
    ensures Sorted(CaughtUp(rows, q, after))
    ensures forall x :: x in CaughtUp(rows, q, after) ==> Owed(rows, q, after, x)
    ensures |PageOf(rows, after, REPLAY_LIMIT)| < REPLAY_LIMIT ==>
      forall x :: Owed(rows, q, after, x) ==> x in CaughtUp(rows, q, after)
  {
    var page := PageOf(rows, after, REPLAY_LIMIT);
    PageOfIsPage(rows, after, REPLAY_LIMIT);
    FilterSorted(page, (r: Row) => Plays(q, r));
    FilterHolds(page, (r: Row) => Plays(q, r));
  }

  /** How many rows lie above `after` and up to `id`. */
  function UpTo(rows: seq<Row>, after: int, id: int): nat {
    if rows == [] then 0 else (if after < rows[0].id <= id then 1 else 0) + UpTo(rows[1..], after, id)
  }

  lemma {:induction false} NoneUpTo(rows: seq<Row>, after: int, id: int)
    requires forall i :: 0 <= i < |rows| ==> rows[i].id > id
    ensures UpTo(rows, after, id) == 0
  {
    if rows != [] {
      NoneUpTo(rows[1..], after, id);
    }
  }

  lemma {:induction false} UpToCounts(rows: seq<Row>, after: int, i: nat)
    requires Sorted(rows) && i < |rows| && rows[i].id > after
    ensures UpTo(rows, after, rows[i].id) == i + 1 - FirstAbove(rows, after)
    decreases |rows|
  {
    var rest := rows[1..];
    assert forall j :: 0 <= j < |rest| ==> rest[j] == rows[j + 1] && rest[j].id > rows[0].id;
    if i == 0 {
      NoneUpTo(rest, after, rows[0].id);
    } else {
      UpToCounts(rest, after, i - 1);
    }
  }

  /** A sorted row is among those from `k` on, up to `m`, by its place. */
  lemma AmongSlice(rows: seq<Row>, k: nat, m: nat, i: nat)
    requires Sorted(rows) && k <= m <= |rows| && i < |rows|
    ensures rows[i] in rows[k..m] <==> k <= i < m
  {
    if k <= i < m {
      assert rows[k..m][i - k] == rows[i];
    }
    forall j | 0 <= j < m - k && rows[k..m][j] == rows[i] ensures k + j == i {
      assert rows[k + j].id == rows[i].id;
    }
  }

  /** A replay, cut short or not, sends exactly the rows owed among the first 500
      above its cursor. */
  lemma CaughtUpExactly(rows: seq<Row>, q: Query, after: int, r: Row)
    requires Sorted(rows)
    ensures r in CaughtUp(rows, q, after) <==> Owed(rows, q, after, r) && UpTo(rows, after, r.id) <= REPLAY_LIMIT
  {
    var k := FirstAbove(rows, after);
    PageOfIsPage(rows, after, REPLAY_LIMIT);
    FilterHolds(PageOf(rows, after, REPLAY_LIMIT), (r: Row) => Plays(q, r));
    if Owed(rows, q, after, r) {
      var i :| 0 <= i < |rows| && rows[i] == r;
      UpToCounts(rows, after, i);
      AmongSlice(rows, k, Min(k + REPLAY_LIMIT, |rows|), i);
    }
  }

  /** The replay read as many rows as it may; more may remain. */
  predicate Truncated(rows: seq<Row>, after: int) {
    after > 0 && |PageOf(rows, after, REPLAY_LIMIT)| == REPLAY_LIMIT
  }

  /** The replay closes the gap behind a cursor exactly when the cursor is
      positive or there is no gap. */
  lemma CutoverCloses(rows: seq<Row>, q: Query, after: int)
    requires Sorted(rows) && !Truncated(rows, after)
    ensures (forall r :: Owed(rows, q, after, r) ==> r in Replayed(rows, q, after))
       <==> (after > 0 || forall r :: !Owed(rows, q, after, r))
  {
    PageOfIsPage(rows, after, REPLAY_LIMIT);
    CaughtUpHolds(rows, q, after);
  }

  datatype Replaying = Replaying(rows: seq<Row>, truncated: bool)

  /** The replay: wanted rows above the cursor, in order, all of them unless it
      says that it was cut short. */
  method Replay(store: Store, q: Query, after: int) returns (r: Result<Replaying, ()>)
    requires store.future.Valid()
    modifies store
    ensures store.future == old(store.future).Ahead()
    ensures r.Err? <==> after > 0 && old(store.future).NextFails()
    ensures store.faults == old(store.faults) + if r.Err? then 1 else 0
    ensures r.Ok? ==> r.value == Replaying(Replayed(store.future.rows, q, after), Truncated(store.future.rows, after))
  {
    if after <= 0 {
      store.Elapse();
      return Ok(Replaying([], false));
    }
    var all := (r: Row) => true;
    var reply := store.ListMatching(all, after, REPLAY_LIMIT);
    if reply.PageFailed? {
      return Err(());
    }
    FilterAll(store.future.rows, all);
    r := Ok(Replaying(Filter(reply.rows, (r: Row) => Plays(q, r)), |reply.rows| == REPLAY_LIMIT));
  }

  /** What a follower has heard by the time its subscription goes live. */
  datatype Followed = Followed(cursor: int, backfilled: seq<Row>, replayed: seq<Row>, truncated: bool) {
    function Heard(): seq<Row> {
      backfilled + replayed
    }

    /** The server's watermark as it goes live. */
    function Watermark(): int {
      LastId(replayed, cursor)
    }
  }

  /** What has been heard: in order, nothing twice, all of it wanted, committed
      and above the start. */
  ghost predicate InOrder(f: Followed, rows: seq<Row>, q: Query, start: int) {
    && Sorted(f.Heard()) && f.Watermark() == LastId(f.Heard(), start)
    && forall x :: x in f.Heard() ==> q.Wants(x) && x.id > start && x in rows
  }

  lemma FollowedInOrder(begin: Future, n: nat, read: int -> nat, rows: seq<Row>, q: Query, start: int, f: Followed)
    requires begin.Valid() && Upto(begin, n, read, q, start, f.cursor, f.backfilled)
    requires Grows(begin.After(n).rows, rows) && Sorted(rows) && f.replayed == Replayed(rows, q, f.cursor)
    ensures InOrder(f, rows, q, start)
  {
    WalkHolds(begin, n, read, q, start, f.cursor, f.backfilled);
    CaughtUpHolds(rows, q, f.cursor);
    SortedConcat(f.backfilled, f.replayed, f.cursor);
    assert f.replayed == [] ==> f.Heard() == f.backfilled;
  }

  /** No row that is owed is missed: each one at or below the cursor had committed
      by the read of its page, and the replay sends what is above it. */
  ghost predicate Closed(begin: Future, rows: seq<Row>, read: int -> nat, q: Query, start: int, cursor: int) {
    && (forall x :: Owed(rows, q, start, x) && x.id <= cursor ==> x in begin.After(read(x.id)).rows)
    && (cursor > 0 || forall x :: !Owed(rows, q, cursor, x))
  }

  lemma HeardBelow(begin: Future, n: nat, read: int -> nat, rows: seq<Row>, q: Query, start: int, f: Followed, x: Row)
    requires Walked(begin, n, read, q, start, f.cursor, f.backfilled) && Sorted(rows)
    requires f.replayed == Replayed(rows, q, f.cursor) && Owed(rows, q, start, x) && x.id <= f.cursor
    ensures x in f.Heard() <==> x in begin.After(read(x.id)).rows
  {
    CaughtUpHolds(rows, q, f.cursor);
  }

  lemma HeardAbove(begin: Future, n: nat, read: int -> nat, rows: seq<Row>, q: Query, start: int, f: Followed, x: Row)
    requires Walked(begin, n, read, q, start, f.cursor, f.backfilled)
    requires f.replayed == Replayed(rows, q, f.cursor) && x.id > f.cursor
    ensures x in f.Heard() <==> x in Replayed(rows, q, f.cursor)
  {
  }

  lemma FollowedMisses(begin: Future, n: nat, read: int -> nat, rows: seq<Row>, q: Query, start: int, f: Followed)
    requires Walked(begin, n, read, q, start, f.cursor, f.backfilled) && Sorted(rows)
    requires f.replayed == Replayed(rows, q, f.cursor) && !Truncated(rows, f.cursor)
    ensures (forall x :: Owed(rows, q, start, x) ==> x in f.Heard()) <==> Closed(begin, rows, read, q, start, f.cursor)
  {
    CutoverCloses(rows, q, f.cursor);
    forall x | Owed(rows, q, start, x)
      ensures x.id <= f.cursor ==> (x in f.Heard() <==> x in begin.After(read(x.id)).rows)
      ensures x.id > f.cursor ==> (x in f.Heard() <==> x in Replayed(rows, q, f.cursor))
    {
      if x.id <= f.cursor {
        HeardBelow(begin, n, read, rows, q, start, f, x);
      } else {
        HeardAbove(begin, n, read, rows, q, start, f, x);
      }
    }
    assert forall x :: Owed(rows, q, f.cursor, x) <==> Owed(rows, q, start, x) && x.id > f.cursor;
  }

  /** Backfill, then subscribe from the last event delivered. No event is heard
      twice; none that was committed when the follower began is missed; and of
      those committed when it subscribed, unless it was told of a truncated
      replay, none is missed exactly when every one at or below its cursor had
      committed by the read of its page, and the cursor is positive or there is
      none above it. */
  method FollowLog(store: Store, q: Query, start: int, pageLimit: int)
    returns (r: Result<Followed, ()>, ghost n: nat, ghost read: int -> nat)
    requires store.future.Valid()
    modifies store
    ensures r.Err? ==> start < 0 || store.faults > old(store.faults) || q.FailsOn(store.future.rows)
    ensures r.Ok? ==> store.faults == old(store.faults)
    ensures r.Ok? ==> InOrder(r.value, store.future.rows, q, start)
    ensures r.Ok? ==> Complete(old(store.future).rows, q, start, r.value.backfilled)
    ensures r.Ok? ==> r.value.replayed == Replayed(store.future.rows, q, r.value.cursor)
    ensures r.Ok? ==> r.value.truncated == Truncated(store.future.rows, r.value.cursor)
    ensures r.Ok? ==> store.future == old(store.future).After(n + 1)
    ensures r.Ok? ==> Upto(old(store.future), n, read, q, start, r.value.cursor, r.value.backfilled)
    ensures r.Ok? && !r.value.truncated ==>
      ((forall x :: Owed(store.future.rows, q, start, x) ==> x in r.value.Heard())
       <==> Closed(old(store.future), store.future.rows, read, q, start, r.value.cursor))
    ensures start >= 0 && !old(store.future).Ahead().NextFails() ==>
      AllNext(old(store.future), q, start, BackfillSize(pageLimit)) ==>
      r.Ok? && n == 1 && r.value.backfilled == old(store.future).Ahead().rows
  {
    ghost var begin := store.future;
    var back, out;
    back, out, n, read := Backfill(store, q, start, pageLimit);
    if back.Err? {
      return Err(()), n, read;
    }
    begin.AfterKeeps(n);
    begin.AfterKeeps(n + 1);
    ghost var mid := store.future;
    var after := back.value;
    var replay := Replay(store, q, after);
    assert store.future == begin.After(n + 1);
    mid.AfterKeeps(1);
    assert mid.After(1) == mid.After(0).Ahead();
    assert begin.After(1) == begin.After(0).Ahead();
    if replay.Err? {
      return Err(()), n, read;
    }
    var f := Followed(after, out, replay.value.rows, replay.value.truncated);
    FollowedInOrder(begin, n, read, store.future.rows, q, start, f);
    if !f.truncated {
      FollowedMisses(begin, n, read, store.future.rows, q, start, f);
    }
    r := Ok(f);
  }

  /** A log of `first` that has become `grown` by the second read. */
  lemma TwoReads(first: seq<Row>, grown: seq<Row>)
    requires Sorted(first) && Sorted(grown) && Grows(first, grown)
    ensures var future := Future(first, [Turn(first, false), Turn(grown, false)]);
      && future.Valid() && future.Ahead().rows == first && !future.NextFails() && !future.Ahead().NextFails()
      && future.After(2).rows == grown
  {
    var future := Future(first, [Turn(first, false), Turn(grown, false)]);
    assert future.turns[1..] == [Turn(grown, false)];
    assert future.Ahead().turns[1..] == [];
    assert future.Ahead().Ahead().Valid();
    assert future.Ahead().Valid();
    assert future.After(2) == future.After(1).Ahead() && future.After(1) == future.After(0).Ahead();
  }

  /** Follow a short log of wanted rows from zero, which has become `grown` by the
      time of the subscription. */
  method FollowShort(q: Query, first: seq<Row>, grown: seq<Row>) returns (store: Store, r: Result<Followed, ()>)
    requires |first| < BackfillSize(0) && |grown| < REPLAY_LIMIT && Sorted(first) && Sorted(grown) && Grows(first, grown)
    requires forall x :: x in first ==> x.id > 0 && q.Wants(x) && !q.unchecked(x)
    ensures r.Ok? && !r.value.truncated && r.value.cursor == LastId(first, 0) && store.future.rows == grown
    ensures r.value.Heard() == first + Replayed(grown, q, LastId(first, 0))
  {
    TwoReads(first, grown);
    store := new Store(Future(first, [Turn(first, false), Turn(grown, false)]));
    ghost var n, read;
    r, n, read := FollowLog(store, q, 0, 0);
  }

  /** A follower of an empty log from zero misses the event committed between its
      last page and its subscription: a run of `FollowLog` that does. */
  method ColdStart(q: Query) returns (store: Store, r: Result<Followed, ()>)
    requires Plays(q, Row(1, true))
    ensures r.Ok? && !r.value.truncated && r.value.cursor == 0
    ensures Owed(store.future.rows, q, 0, Row(1, true)) && Row(1, true) !in r.value.Heard()
  {
    store, r := FollowShort(q, [], [Row(1, true)]);
  }

  /** A follower that has read past an id misses the row that commits there
      later, with a positive cursor too: a run of `FollowLog` that does. */
  method LateRow(q: Query) returns (store: Store, r: Result<Followed, ()>)
    requires Plays(q, Row(1, true)) && Plays(q, Row(2, true)) && !q.unchecked(Row(2, true))
    ensures r.Ok? && !r.value.truncated && r.value.cursor == 2
    ensures Owed(store.future.rows, q, 0, Row(1, true)) && Row(1, true) !in r.value.Heard()
  {
    var late, early := Row(1, true), Row(2, true);
    store, r := FollowShort(q, [early], [late, early]);
    CaughtUpHolds([late, early], q, 2);
  }
}
