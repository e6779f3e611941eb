/**
 The live end of a subscription: items off the bus, some of them repeated, out
 of order or lost to a lag, against a watermark that only rises.
 */
module LiveEvents {
  import opened Basics
  import opened EventLogs
  import opened EventPages
  import opened FollowLogs

  /** An event the subscription's filter lets through, or word that the bus has
      dropped some, with the log as the replay that follows meets it, if its
      read succeeds. */
  datatype BusItem = Live(row: Row) | Lagged(log: Option<seq<Row>>)

  datatype Stream = Stream(watermark: int, sent: seq<Row>)

  function Take(q: Query, s: Stream, item: BusItem): Stream {
    match item
    case Live(row) => if row.id <= s.watermark then s else Stream(row.id, s.sent + [row])
    case Lagged(None) => s
    case Lagged(Some(log)) =>
      var rows := CaughtUp(log, q, s.watermark);
      Stream(Max(s.watermark, LastId(rows, s.watermark)), s.sent + rows)
  }

  function Forwarded(q: Query, s: Stream, items: seq<BusItem>): Stream
    decreases |items|
  {
    if items == [] then s
    else Take(q, Forwarded(q, s, items[..|items| - 1]), items[|items| - 1])
  }

  /** The forwarding loop. */
  method ForwardBusItems(q: Query, watermark: int, items: seq<BusItem>) returns (s: Stream)
    ensures s == Forwarded(q, Stream(watermark, []), items)
  {
    var mark := watermark;
    var sent: seq<Row> := [];
    for i := 0 to |items|
      invariant Stream(mark, sent) == Forwarded(q, Stream(watermark, []), items[..i])
    {
      assert items[..i + 1][..i] == items[..i];
      match items[i] {
        case Live(row) =>
          if row.id > mark {
            mark := row.id;
            sent := sent + [row];
          }
        case Lagged(None) =>
        case Lagged(Some(log)) =>
          var rows := CaughtUp(log, q, mark);
          sent := sent + rows;
          mark := Max(mark, LastId(rows, mark));
      }
    }
    assert items[..|items|] == items;
    s := Stream(mark, sent);
  }

  ghost predicate LogsSorted(items: seq<BusItem>) {
    forall i :: 0 <= i < |items| && items[i].Lagged? && items[i].log.Some? ==> Sorted(items[i].log.value)
  }

  /** What was sent ascends from above where the stream began, and the watermark
      is its end. */
  ghost predicate Ascends(s: Stream, began: int) {
    Sorted(s.sent) && s.watermark == LastId(s.sent, began) && forall r :: r in s.sent ==> began < r.id <= s.watermark
  }

  lemma RowsAppend(s: Stream, began: int, rows: seq<Row>)
    requires Ascends(s, began) && Sorted(rows) && began <= s.watermark && forall r :: r in rows ==> r.id > s.watermark
    ensures Ascends(Stream(Max(s.watermark, LastId(rows, s.watermark)), s.sent + rows), began)
    ensures Max(s.watermark, LastId(rows, s.watermark)) >= s.watermark
  {
    SortedConcat(s.sent, rows, s.watermark);
    if rows != [] {
      assert rows[|rows| - 1] in rows;
      forall r | r in rows ensures r.id <= rows[|rows| - 1].id {
        var i :| 0 <= i < |rows| && rows[i] == r;
      }
    } else {
      assert s.sent + rows == s.sent;
    }
  }

  /** Whatever the bus repeats, reorders or drops, what is forwarded ascends
      strictly: nothing is sent twice. */
  lemma {:induction false} ForwardedAscends(q: Query, began: int, items: seq<BusItem>)
    requires LogsSorted(items)
    ensures var s := Forwarded(q, Stream(began, []), items); Ascends(s, began) && began <= s.watermark
    decreases |items|
  {
    if items != [] {
      var k := |items| - 1;
      ForwardedAscends(q, began, items[..k]);
      var s := Forwarded(q, Stream(began, []), items[..k]);
      match items[k] {
        case Live(row) =>
          if row.id > s.watermark {
            RowsAppend(s, began, [row]);
          }
        case Lagged(None) =>
        case Lagged(Some(log)) =>
          CaughtUpHolds(log, q, s.watermark);
          RowsAppend(s, began, CaughtUp(log, q, s.watermark));
      }
    }
  }

  /** A follower hears the backfill, the replay and the live events as one
      ascending sequence. */
  lemma LiveFollows(f: Followed, rows: seq<Row>, q: Query, start: int, items: seq<BusItem>)
    requires InOrder(f, rows, q, start) && LogsSorted(items)
    ensures Sorted(f.Heard() + Forwarded(q, Stream(f.Watermark(), []), items).sent)
  {
    ForwardedAscends(q, f.Watermark(), items);
    var heard := f.Heard();
    forall r | r in heard ensures r.id <= f.Watermark() {
      var i :| 0 <= i < |heard| && heard[i] == r;
    }
    SortedConcat(heard, Forwarded(q, Stream(f.Watermark(), []), items).sent, f.Watermark());
  }

  // -------------------------------------------------------- what is forwarded

  /** What a stream has done when its first `i` items are through. */
  function Before(q: Query, began: int, items: seq<BusItem>, i: nat): Stream
    requires i <= |items|
  {
    Forwarded(q, Stream(began, []), items[..i])
  }

  /** Item `i` brings `r`: it is the event, or the log of the replay holds it. */
  predicate Brings(q: Query, items: seq<BusItem>, i: nat, r: Row)
    requires i < |items|
  {
    match items[i]
    case Live(row) => row == r
    case Lagged(None) => false
    case Lagged(Some(log)) => r in log && Plays(q, r)
  }

  /** The replay of item `i`, if it is one, read as many rows as it may. */
  predicate CutShort(q: Query, began: int, items: seq<BusItem>, i: nat)
    requires i < |items|
  {
    && items[i].Lagged? && items[i].log.Some?
    && |PageOf(items[i].log.value, Before(q, began, items, i).watermark, REPLAY_LIMIT)| == REPLAY_LIMIT
  }

  lemma BeforeNext(q: Query, began: int, items: seq<BusItem>, i: nat)
    requires i < |items|
    ensures Before(q, began, items, i + 1) == Take(q, Before(q, began, items, i), items[i])
  {
    assert items[..i + 1][..i] == items[..i];
  }

  /** One item: what it adds lies above the watermark and was brought by it; what
      it brings from above the watermark it adds, unless cut short. */
  lemma TakeAdds(q: Query, began: int, items: seq<BusItem>, i: nat, r: Row)
    requires LogsSorted(items) && i < |items|
    ensures var s := Before(q, began, items, i);
      var t := Before(q, began, items, i + 1);
      && s.watermark <= t.watermark && (r in s.sent ==> r in t.sent)
      && (r in t.sent && r !in s.sent ==> Brings(q, items, i, r) && r.id > s.watermark)
      && (Brings(q, items, i, r) && r.id > s.watermark && !CutShort(q, began, items, i) ==> r in t.sent)
  {
    var s := Before(q, began, items, i);
    BeforeNext(q, began, items, i);
    if items[i].Lagged? && items[i].log.Some? {
      var log := items[i].log.value;
      CaughtUpHolds(log, q, s.watermark);
      PageOfIsPage(log, s.watermark, REPLAY_LIMIT);
    }
  }

  /** Nothing at or below the watermark is sent later, and nothing sent is
      unsent. */
  lemma {:induction false} SentLater(q: Query, began: int, items: seq<BusItem>, i: nat, j: nat, r: Row)
    requires LogsSorted(items) && i <= j <= |items|
    ensures var s := Before(q, began, items, i);
      var t := Before(q, began, items, j);
      && s.watermark <= t.watermark && (r in s.sent ==> r in t.sent)
      && (r in t.sent && r !in s.sent ==> r.id > s.watermark)
    decreases j
  {
    if i < j {
      SentLater(q, began, items, i, j - 1, r);
      TakeAdds(q, began, items, j - 1, r);
    }
  }

  /** Over any mix of live items and lags: an event that item `i` brings, live or
      in the log of a replay that was not cut short, is forwarded exactly when it
      had been before or its id is above the watermark when the item comes. */
  lemma BroughtExactly(q: Query, began: int, items: seq<BusItem>, i: nat, r: Row)
    requires LogsSorted(items) && i < |items| && Brings(q, items, i, r) && !CutShort(q, began, items, i)
    ensures r in Forwarded(q, Stream(began, []), items).sent
       <==> r in Before(q, began, items, i).sent || r.id > Before(q, began, items, i).watermark
  {
    assert items[..|items|] == items;
    TakeAdds(q, began, items, i, r);
    SentLater(q, began, items, i, |items|, r);
    SentLater(q, began, items, i + 1, |items|, r);
  }

  /** Item `i` brings `r` from above where the stream began and above everything
      the items before it brought. */
  ghost predicate Leads(q: Query, began: int, items: seq<BusItem>, i: nat, r: Row) {
    && i < |items| && Brings(q, items, i, r) && r.id > began
    && forall j: nat, x :: j < i && Brings(q, items, j, x) ==> x.id < r.id
  }

  ghost predicate NoneCutShort(q: Query, began: int, items: seq<BusItem>) {
    forall i: nat :: i < |items| ==> !CutShort(q, began, items, i)
  }

  /** The watermark is the highest id brought so far, or where the stream began. */
  lemma {:induction false} MarkIsHighest(q: Query, began: int, items: seq<BusItem>, k: nat)
    requires LogsSorted(items) && NoneCutShort(q, began, items) && k <= |items|
    ensures var mark := Before(q, began, items, k).watermark;
      && began <= mark && (forall j: nat, x :: j < k && Brings(q, items, j, x) ==> x.id <= mark)
      && (mark == began || exists j: nat, x :: j < k && Brings(q, items, j, x) && x.id == mark)
    decreases k
  {
    if k > 0 {
      MarkIsHighest(q, began, items, k - 1);
      MarkRises(q, began, items, k - 1);
    }
  }

  /** A replay that was not cut short reaches the highest id owed. */
  lemma ReplayRises(log: seq<Row>, q: Query, mark: int)
    requires Sorted(log) && |PageOf(log, mark, REPLAY_LIMIT)| < REPLAY_LIMIT
    ensures var end := Max(mark, LastId(CaughtUp(log, q, mark), mark));
      && (forall x :: x in log && Plays(q, x) ==> x.id <= end)
      && (end == mark || exists x :: x in log && Plays(q, x) && x.id == end)
  {
    var rows := CaughtUp(log, q, mark);
    CaughtUpHolds(log, q, mark);
    if rows != [] {
      var last := rows[|rows| - 1];
      assert last in rows && Owed(log, q, mark, last);
    }
    forall x | x in log && Plays(q, x) && x.id > mark ensures x.id <= LastId(rows, mark) {
      assert Owed(log, q, mark, x);
      var k :| 0 <= k < |rows| && rows[k] == x;
    }
  }

  /** An item raises the watermark to the highest id it brings, if that is higher. */
  lemma MarkRises(q: Query, began: int, items: seq<BusItem>, i: nat)
    requires LogsSorted(items) && i < |items| && !CutShort(q, began, items, i)
    ensures var s := Before(q, began, items, i).watermark;
      var t := Before(q, began, items, i + 1).watermark;
      && s <= t && (forall x :: Brings(q, items, i, x) ==> x.id <= t)
      && (t == s || exists x :: Brings(q, items, i, x) && x.id == t)
  {
    var mark := Before(q, began, items, i).watermark;
    BeforeNext(q, began, items, i);
    match items[i] {
      case Live(row) =>
        assert Brings(q, items, i, row);
      case Lagged(None) =>
      case Lagged(Some(log)) =>
        PageOfIsPage(log, mark, REPLAY_LIMIT);
        ReplayRises(log, q, mark);
        var end := Max(mark, LastId(CaughtUp(log, q, mark), mark));
        if end > mark {
          var x :| x in log && Plays(q, x) && x.id == end;
          assert Brings(q, items, i, x);
        }
    }
  }

  /** Over any mix of live items and lags whose replays were not cut short, an
      event is forwarded exactly when an item brings it from above where the
      stream began and above all that came before: out of order it is dropped. */
  lemma LiveExactly(q: Query, began: int, items: seq<BusItem>, r: Row)
    requires LogsSorted(items) && NoneCutShort(q, began, items)
    ensures r in Forwarded(q, Stream(began, []), items).sent <==> exists i: nat :: Leads(q, began, items, i, r)
  {
    assert items[..|items|] == items;
    SentBy(q, began, items, |items|, r);
  }

  lemma {:induction false} SentBy(q: Query, began: int, items: seq<BusItem>, k: nat, r: Row)
    requires LogsSorted(items) && NoneCutShort(q, began, items) && k <= |items|
    ensures r in Before(q, began, items, k).sent <==> exists i: nat :: i < k && Leads(q, began, items, i, r)
    decreases k
  {
    if k > 0 {
      SentBy(q, began, items, k - 1, r);
      TakeAdds(q, began, items, k - 1, r);
      LeadsAbove(q, began, items, k - 1, r);
    }
  }

  /** To lead is to be above the watermark. */
  lemma LeadsAbove(q: Query, began: int, items: seq<BusItem>, i: nat, r: Row)
    requires LogsSorted(items) && NoneCutShort(q, began, items) && i < |items|
    ensures Leads(q, began, items, i, r) <==> Brings(q, items, i, r) && r.id > Before(q, began, items, i).watermark
  {
    MarkIsHighest(q, began, items, i);
  }
}
