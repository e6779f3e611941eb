/**
 Every run of the notification floor on any number of replicas.

 Transactions take ids in order and commit or roll back in any order. A commit
 notifies the connected replicas in commit order, and any notification can be
 lost. Replicas come up at any time, disconnect and reconnect; every read of
 the log is its own step and can fail, so commits land between the page reads
 of one drain and between a drain and the hydration that follows it.

 `before`, `below`, `lost` and `unread` record what happened to a replica; the
 floor never looks at them.
 */
module NotifyRuns {
  import opened Basics
  import opened EventLogs
  import opened NotifyFloors

  datatype Replica = Replica(
    floor: Floor,
    connected: bool,
    queue: seq<int>,
    before: set<int>,   // committed before this replica listened
    below: set<int>,    // at or below the floor's position when they committed
    lost: set<int>,     // notification lost on the way here
    unread: set<int>)   // notification arrived, its event was not read

  datatype World = World(next: int, open: set<int>, log: seq<Row>, replicas: seq<Replica>)

  datatype Step =
    | Begin
    | Commit(id: int, decodes: bool, lostTo: set<nat>)
    | RollBack(id: int)
    | Listen
    | ReadHead(r: nat)
    | Notify(r: nat, id: int)
    | Deliver(r: nat)
    | ReadPage(r: nat, page: PageReply)
    | ReadEvent(r: nat, event: GetReply)
    | Disconnect(r: nat)
    | Reconnect(r: nat)

  const NEW_FLOOR := Floor(0, Starting, [], 0, 0, 0, 0)

  ghost predicate HasId(log: seq<Row>, id: int) {
    Row(id, true) in log || Row(id, false) in log
  }

  function IdSet(log: seq<Row>): (ids: set<int>)
    ensures forall i :: i in ids <==> HasId(log, i)
  {
    var ids := set r | r in log :: r.id;
    assert forall i :: i in ids ==> HasId(log, i) by {
      forall i | i in ids ensures HasId(log, i) {
        var r :| r in log && r.id == i;
        assert r == Row(i, r.decodes);
      }
    }
    assert forall i :: HasId(log, i) ==> i in ids;
    ids
  }

  lemma InsertSorted(log: seq<Row>, row: Row)
    requires Sorted(log) && forall r :: r in log ==> r.id != row.id
    ensures var k := FirstAbove(log, row.id); Sorted(log[..k] + [row] + log[k..])
  {
    var k := FirstAbove(log, row.id);
    var grown := log[..k] + [row] + log[k..];
    forall i | 0 <= i < |log| ensures log[i].id != row.id {
      assert log[i] in log;
    }
    forall i, j | 0 <= i < j < |grown| ensures grown[i].id < grown[j].id {
      if j > k {
        assert grown[j] == log[j - 1] && log[k].id <= log[j - 1].id;
      }
    }
  }

  lemma InsertHolds(log: seq<Row>, row: Row, k: nat)
    requires k <= |log|
    ensures forall r :: r in log[..k] + [row] + log[k..] <==> r in log || r == row
  {
    assert log == log[..k] + log[k..];
  }

  function Insert(log: seq<Row>, row: Row): (grown: seq<Row>)
    requires Sorted(log) && row.id !in IdSet(log)
    ensures Sorted(grown) && Grows(log, grown)
    ensures forall r :: r in grown <==> r in log || r == row
  {
    var k := FirstAbove(log, row.id);
    assert forall r :: r in log ==> r.id != row.id by {
      forall r | r in log ensures r.id != row.id {
        assert r == Row(r.id, r.decodes);
      }
    }
    InsertSorted(log, row);
    InsertHolds(log, row, k);
    log[..k] + [row] + log[k..]
  }

  /** A commit reaches one replica. */
  function Notified(r: Replica, id: int, isLost: bool): Replica {
    var s := if id <= Position(r.floor) then r.(below := r.below + {id}) else r;
    if r.connected && !isLost then s.(queue := r.queue + [id]) else s.(lost := r.lost + {id})
  }

  ghost predicate Enabled(w: World, s: Step, limit: nat) {
    match s
    case Begin | Listen => true
    case Commit(id, _, _) => id in w.open && Sorted(w.log) && id !in IdSet(w.log)
    case RollBack(id) => id in w.open
    case ReadHead(r) => r < |w.replicas| && w.replicas[r].floor.phase.Starting?
    // A repeated pointer: the outbox relay, or a caller retrying a failed one.
    case Notify(r, id) => r < |w.replicas| && w.replicas[r].connected && HasId(w.log, id)
    case Deliver(r) =>
      r < |w.replicas| && w.replicas[r].floor.phase.Idle? && w.replicas[r].queue != []
    case ReadPage(r, page) =>
      r < |w.replicas| && Answers(w.replicas[r].floor, Seen(w.log, Page(page)), limit)
    case ReadEvent(r, event) =>
      r < |w.replicas| && Answers(w.replicas[r].floor, Seen(w.log, Event(event)), limit)
    case Disconnect(r) => r < |w.replicas| && w.replicas[r].connected
    case Reconnect(r) => r < |w.replicas| && w.replicas[r].floor.phase.Idle?
  }

  ghost function Next(w: World, s: Step, limit: nat): World
    requires Enabled(w, s, limit)
  {
    match s
    case Begin => w.(next := w.next + 1, open := w.open + {w.next})
    case Commit(id, decodes, lostTo) =>
      World(w.next, w.open - {id}, Insert(w.log, Row(id, decodes)),
            seq(|w.replicas|, i requires 0 <= i < |w.replicas| => Notified(w.replicas[i], id, i in lostTo)))
    case RollBack(id) => w.(open := w.open - {id})
    case Listen => w.(replicas := w.replicas + [Replica(NEW_FLOOR, true, [], IdSet(w.log), {}, {}, {})])
    case ReadHead(r) =>
      var rep := w.replicas[r];
      w.(replicas := w.replicas[r := rep.(floor := StartAt(rep.floor, LastId(w.log, 0)), below := IdSet(w.log))])
    case Notify(r, id) =>
      w.(replicas := w.replicas[r := w.replicas[r].(queue := w.replicas[r].queue + [id])])
    case Deliver(r) =>
      var rep := w.replicas[r];
      w.(replicas := w.replicas[r := rep.(queue := rep.queue[1..], floor := StartPointer(rep.floor, rep.queue[0]))])
    case ReadPage(r, page) =>
      w.(replicas := w.replicas[r := w.replicas[r].(floor := OnPage(w.replicas[r].floor, page, limit))])
    case ReadEvent(r, event) => w.(replicas := w.replicas[r := AfterGet(w.replicas[r], event)])
    case Disconnect(r) =>
      var rep := w.replicas[r];
      w.(replicas := w.replicas[r := rep.(connected := false, queue := [], lost := rep.lost + set id | id in rep.queue)])
    case Reconnect(r) =>
      var rep := w.replicas[r];
      w.(replicas := w.replicas[r := rep.(connected := true, floor := StartReconnect(rep.floor))])
  }

  function AfterGet(r: Replica, event: GetReply): Replica
    requires r.floor.phase.Hydrating?
  {
    var s := r.(floor := OnGet(r.floor, event));
    if event.Got? then s else s.(unread := r.unread + {r.floor.phase.id})
  }

  /** These steps lead from `u` to `w`. */
  ghost predicate Leads(u: World, steps: seq<Step>, limit: nat, w: World)
    decreases |steps|
  {
    if steps == [] then w == u
    else
      var k := |steps| - 1;
      exists v :: Leads(u, steps[..k], limit, v) && Enabled(v, steps[k], limit) && w == Next(v, steps[k], limit)
  }

  const EMPTY := World(1, {}, [], [])

  // -------------------------------------------------------------- invariants

  /** Nothing decodable at or below the position is missing unexcused. */
  ghost predicate Swept(log: seq<Row>, f: Floor, below: set<int>) {
    forall c :: Row(c, true) in log && c <= Position(f) ==> c in f.published || c in below
  }

  ghost predicate OnlyCommitted(log: seq<Row>, f: Floor) {
    forall p :: p in f.published ==> Row(p, true) in log
  }

  /** The id whose pointer the floor is working on. */
  ghost predicate InHand(f: Floor, id: int) {
    || (f.phase.Draining? && f.phase.to == Some(id))
    || (f.phase.Hydrating? && f.phase.id == id)
  }

  /** Where a committed event's notification to this replica went. */
  ghost predicate Traced(r: Replica, id: int) {
    id in r.before || id in r.queue || InHand(r.floor, id) || id in r.floor.published || id in r.lost || id in r.unread
  }

  ghost predicate AtMostHead(log: seq<Row>, n: int) {
    n <= LastId(log, 0)
  }

  /** The floor's bookkeeping is consistent, and it only works on committed ids. */
  ghost predicate WellPlaced(log: seq<Row>, f: Floor) {
    && 0 <= f.mark <= Position(f)
    && AtMostHead(log, Position(f))
    && (f.phase.Draining? && f.phase.to.Some? ==> HasId(log, f.phase.to.value) && f.phase.cursor < f.phase.to.value)
    && (f.phase.Hydrating? ==> HasId(log, f.phase.id))
    && (f.phase.Starting? ==> f.published == [] && f.mark == 0)
  }

  ghost predicate ReplicaInv(log: seq<Row>, r: Replica) {
    && Swept(log, r.floor, r.below)
    && OnlyCommitted(log, r.floor)
    && WellPlaced(log, r.floor)
    && (forall id :: id in r.queue ==> HasId(log, id))
    && (forall id :: id in r.below ==> id <= Position(r.floor))
    && (forall row :: row in log ==> Traced(r, row.id))
    && |r.floor.published| == r.floor.ok + r.floor.backfilled
  }

  ghost predicate LogInv(w: World) {
    && w.next >= 1
    && Sorted(w.log)
    && (forall r :: r in w.log ==> 1 <= r.id < w.next && r.id !in w.open)
    && (forall id :: id in w.open ==> 1 <= id < w.next)
  }

  ghost predicate Inv(w: World) {
    && LogInv(w)
    && forall i :: 0 <= i < |w.replicas| ==> ReplicaInv(w.log, w.replicas[i])
  }

  // --------------------------------------------- one replica, one step at once

  lemma LastIdIsHead(log: seq<Row>)
    requires Sorted(log)
    ensures forall r :: r in log ==> r.id <= LastId(log, 0)
  {
  }

  lemma GrowthRaisesHead(log: seq<Row>, grown: seq<Row>)
    requires Sorted(log) && Sorted(grown) && Grows(log, grown)
    requires forall r :: r in grown ==> r.id >= 1
    ensures LastId(log, 0) <= LastId(grown, 0)
  {
    LastIdIsHead(grown);
    if log != [] {
      assert log[|log| - 1] in grown;
    } else if grown != [] {
      assert grown[|grown| - 1] in grown;
    }
  }

  lemma BeforeIsSorted(page: seq<Row>, to: Option<int>, log: seq<Row>, after: int, limit: nat)
    requires IsPage(log, after, limit, page)
    ensures var rows := Before(page, to);
      && LastId(rows, after) >= after
      && (forall r :: r in rows ==> r.id <= LastId(rows, after) && r in log && r.id > after)
      && (rows != [] ==> rows[|rows| - 1] in log)
  {
    var rows := Before(page, to);
    forall r | r in rows ensures r.id <= LastId(rows, after) && r in log && r.id > after {
      var i :| 0 <= i < |rows| && rows[i] == r;
      assert page[i] == r && page[i] in page;
      assert page[|rows| - 1] == rows[|rows| - 1];
    }
    assert rows != [] ==> rows[|rows| - 1] in rows;
  }

  /** Either a row of the page comes before the bound, or the bound has been
      reached at or below it. */
  lemma InPageSwept(page: seq<Row>, to: Option<int>, row: Row)
    requires Sorted(page) && row in page
    ensures var rows := Before(page, to);
      row in rows || (|rows| < |page| && Reaches(to, row.id) && (rows != [] ==> row.id > rows[|rows| - 1].id))
  {
    var rows := Before(page, to);
    var i :| 0 <= i < |page| && page[i] == row;
    if i < |rows| {
      assert rows[i] == row;
    } else {
      assert page[|rows|].id <= row.id;
      if rows != [] {
        assert rows[|rows| - 1] == page[|rows| - 1];
      }
    }
  }

  /** A row beyond a full page is beyond everything the page passed. */
  lemma BeyondPageSwept(page: seq<Row>, to: Option<int>, id: int)
    requires Sorted(page) && page != [] && id > page[|page| - 1].id
    ensures var rows := Before(page, to);
      && (rows != [] ==> id > rows[|rows| - 1].id)
      && (|rows| < |page| ==> Reaches(to, id))
  {
    var n := |Before(page, to)|;
    if n > 0 {
      BelowNewer(page, id, n - 1);
    }
    if n < |page| {
      BelowNewer(page, id, n);
    }
  }

  lemma BelowNewer(page: seq<Row>, id: int, i: nat)
    requires Sorted(page) && i < |page| && id > page[|page| - 1].id
    ensures page[i].id < id
  {
  }

  /** What a page does to a drain: it passes nothing decodable without
      publishing it, up to its new cursor, and up to the bound when complete. */
  lemma PageSweeps(log: seq<Row>, cursor: int, to: Option<int>, page: seq<Row>, limit: nat, c: int)
    requires IsPage(log, cursor, limit, page)
    requires Row(c, true) in log && c > cursor
    ensures var d := DrainPage(cursor, to, PageRows(page), limit);
      (c <= d.cursor || (d.status == Complete && !Reaches(to, c))) ==> c in d.published
  {
    DecodedHolds(Before(page, to));
    if Row(c, true) in page {
      InPageSwept(page, to, Row(c, true));
    } else {
      BeyondPageSwept(page, to, c);
    }
  }

  /** How far one page moves the floor's position. */
  lemma PageMovesPosition(f: Floor, reply: PageReply, limit: nat, c: int)
    requires f.phase.Draining? && c <= Position(OnPage(f, reply, limit))
    ensures var d := DrainPage(f.phase.cursor, f.phase.to, reply, limit);
      && OnPage(f, reply, limit).published == f.published + d.published
      && (c <= d.cursor || (d.status == Complete && !Reaches(f.phase.to, c)))
  {
  }

  lemma PageKeepsSwept(log: seq<Row>, f: Floor, below: set<int>, reply: PageReply, limit: nat)
    requires Answers(f, Seen(log, Page(reply)), limit) && Swept(log, f, below)
    ensures Swept(log, OnPage(f, reply, limit), below)
  {
    var g := OnPage(f, reply, limit);
    forall c | Row(c, true) in log && c <= Position(g)
      ensures c in g.published || c in below
    {
      PageMovesPosition(f, reply, limit, c);
      if c <= f.phase.cursor {
        assert c in f.published || c in below;
      } else if reply.PageRows? {
        PageSweeps(log, f.phase.cursor, f.phase.to, reply.rows, limit, c);
      }
    }
  }

  /** A page publishes committed ids only, and ends at one or where it began. */
  lemma PageStaysIn(log: seq<Row>, cursor: int, to: Option<int>, page: seq<Row>, limit: nat)
    requires IsPage(log, cursor, limit, page) && Sorted(log)
    ensures var d := DrainPage(cursor, to, PageRows(page), limit);
      && (forall p :: p in d.published ==> Row(p, true) in log)
      && cursor <= d.cursor && (d.cursor <= cursor || d.cursor <= LastId(log, 0))
      && (to.Some? && cursor < to.value ==> d.cursor < to.value)
  {
    LastIdIsHead(log);
    BeforeIsSorted(page, to, log, cursor, limit);
    var rows := Before(page, to);
    DecodedHolds(rows);
    if rows != [] {
      assert rows[|rows| - 1] in rows;
    }
  }

  lemma TakeKeepsPlaced(log: seq<Row>, f: Floor, d: DrainState)
    requires WellPlaced(log, f) && f.phase.Draining? && Sorted(log)
    requires f.phase.cursor <= d.cursor && AtMostHead(log, d.cursor)
    requires f.phase.to.Some? ==> d.cursor < f.phase.to.value
    ensures WellPlaced(log, TakePage(f, d))
  {
    LastIdIsHead(log);
  }

  lemma PageKeepsPlaced(log: seq<Row>, f: Floor, reply: PageReply, limit: nat)
    requires Answers(f, Seen(log, Page(reply)), limit) && WellPlaced(log, f) && Sorted(log)
    ensures WellPlaced(log, OnPage(f, reply, limit))
  {
    if reply.PageRows? {
      PageStaysIn(log, f.phase.cursor, f.phase.to, reply.rows, limit);
    }
    TakeKeepsPlaced(log, f, DrainPage(f.phase.cursor, f.phase.to, reply, limit));
  }

  lemma PageKeepsCommitted(log: seq<Row>, f: Floor, reply: PageReply, limit: nat)
    requires Answers(f, Seen(log, Page(reply)), limit) && Sorted(log) && OnlyCommitted(log, f)
    ensures OnlyCommitted(log, OnPage(f, reply, limit))
  {
    if reply.PageRows? {
      PageStaysIn(log, f.phase.cursor, f.phase.to, reply.rows, limit);
    }
  }

  lemma PageKeeps(log: seq<Row>, r: Replica, reply: PageReply, limit: nat)
    requires Answers(r.floor, Seen(log, Page(reply)), limit) && ReplicaInv(log, r) && Sorted(log)
    ensures ReplicaInv(log, r.(floor := OnPage(r.floor, reply, limit)))
  {
    PageKeepsSwept(log, r.floor, r.below, reply, limit);
    PageKeepsPlaced(log, r.floor, reply, limit);
    PageKeepsCommitted(log, r.floor, reply, limit);
    var s := r.(floor := OnPage(r.floor, reply, limit));
    assert forall id :: Traced(r, id) ==> Traced(s, id);
  }

  lemma GetKeeps(log: seq<Row>, r: Replica, reply: GetReply)
    requires Answers(r.floor, Seen(log, Event(reply)), 0) && ReplicaInv(log, r) && Sorted(log)
    ensures ReplicaInv(log, AfterGet(r, reply))
  {
    var s := AfterGet(r, reply);
    LastIdIsHead(log);
    assert forall id :: Traced(r, id) ==> Traced(s, id);
    assert forall c :: c <= Position(s.floor) && c > Position(r.floor) ==> c in s.floor.published;
  }

  lemma CommitKeepsSwept(log: seq<Row>, grown: seq<Row>, f: Floor, below: set<int>, row: Row)
    requires Swept(log, f, below) && forall r :: r in grown <==> r in log || r == row
    ensures Swept(grown, f, if row.id <= Position(f) then below + {row.id} else below)
  {
  }

  lemma CommitKeeps(log: seq<Row>, r: Replica, row: Row, isLost: bool)
    requires ReplicaInv(log, r) && Sorted(log) && row.id !in IdSet(log)
    requires forall q :: q in Insert(log, row) ==> q.id >= 1
    ensures ReplicaInv(Insert(log, row), Notified(r, row.id, isLost))
  {
    var grown := Insert(log, row);
    var s := Notified(r, row.id, isLost);
    GrowthRaisesHead(log, grown);
    CommitKeepsSwept(log, grown, r.floor, r.below, row);
    assert s.floor == r.floor;
    assert Traced(s, row.id);
    assert forall id :: Traced(r, id) ==> Traced(s, id);
  }

  lemma DeliverKeeps(log: seq<Row>, r: Replica)
    requires ReplicaInv(log, r) && r.floor.phase.Idle? && r.queue != []
    ensures ReplicaInv(log, r.(queue := r.queue[1..], floor := StartPointer(r.floor, r.queue[0])))
  {
    var s := r.(queue := r.queue[1..], floor := StartPointer(r.floor, r.queue[0]));
    assert r.queue == [r.queue[0]] + s.queue;
    assert forall id :: Traced(r, id) ==> Traced(s, id);
  }

  lemma HeadKeeps(log: seq<Row>, r: Replica)
    requires ReplicaInv(log, r) && r.floor.phase.Starting? && Sorted(log)
    requires forall q :: q in log ==> q.id >= 1
    ensures ReplicaInv(log, r.(floor := StartAt(r.floor, LastId(log, 0)), below := IdSet(log)))
  {
    var s := r.(floor := StartAt(r.floor, LastId(log, 0)), below := IdSet(log));
    if log != [] {
      assert log[|log| - 1] in log;
    }
    assert forall id :: Traced(r, id) ==> Traced(s, id);
  }

  lemma DisconnectKeeps(log: seq<Row>, r: Replica)
    requires ReplicaInv(log, r)
    ensures ReplicaInv(log, r.(connected := false, queue := [], lost := r.lost + set id | id in r.queue))
  {
    var s := r.(connected := false, queue := [], lost := r.lost + set id | id in r.queue);
    assert forall id :: Traced(r, id) ==> Traced(s, id);
  }

  // ------------------------------------------------------------- whole runs

  lemma LogKept(w: World, s: Step, limit: nat)
    requires LogInv(w) && Enabled(w, s, limit)
    ensures LogInv(Next(w, s, limit)) && Grows(w.log, Next(w, s, limit).log)
  {
  }

  /** What a step keeps of a replica that was there. */
  lemma ReplicaKept(w: World, s: Step, limit: nat, i: nat)
    requires LogInv(w) && Enabled(w, s, limit) && i < |w.replicas| && ReplicaInv(w.log, w.replicas[i])
    requires LogInv(Next(w, s, limit))
    ensures ReplicaInv(Next(w, s, limit).log, Next(w, s, limit).replicas[i])
  {
    match s
    case Begin =>
    case RollBack(_) =>
    case Listen =>
    case Commit(id, decodes, lostTo) => CommitKeeps(w.log, w.replicas[i], Row(id, decodes), i in lostTo);
    case ReadHead(r) => if i == r { HeadKeeps(w.log, w.replicas[i]); }
    case Notify(r, id) => if i == r { QueueKeeps(w.log, w.replicas[i], id); }
    case Deliver(r) => if i == r { DeliverKeeps(w.log, w.replicas[i]); }
    case ReadPage(r, page) => if i == r { PageKeeps(w.log, w.replicas[i], page, limit); }
    case ReadEvent(r, event) => if i == r { GetKeeps(w.log, w.replicas[i], event); }
    case Disconnect(r) => if i == r { DisconnectKeeps(w.log, w.replicas[i]); }
    case Reconnect(r) => if i == r { ReconnectKeeps(w.log, w.replicas[i]); }
  }

  /** What every step keeps. */
  lemma StepKeeps(w: World, s: Step, limit: nat)
    requires Inv(w) && Enabled(w, s, limit)
    ensures Inv(Next(w, s, limit))
  {
    LogKept(w, s, limit);
    var v := Next(w, s, limit);
    forall i | 0 <= i < |v.replicas|
      ensures ReplicaInv(v.log, v.replicas[i])
    {
      if i < |w.replicas| {
        ReplicaKept(w, s, limit, i);
      } else {
        NewReplica(w.log);
      }
    }
  }

  lemma NewReplica(log: seq<Row>)
    requires forall q :: q in log ==> q.id >= 1
    ensures ReplicaInv(log, Replica(NEW_FLOOR, true, [], IdSet(log), {}, {}, {}))
  {
    var r := Replica(NEW_FLOOR, true, [], IdSet(log), {}, {}, {});
    forall row | row in log ensures Traced(r, row.id) {
      assert row == Row(row.id, row.decodes);
    }
    if log != [] {
      assert log[|log| - 1] in log;
    }
  }

  lemma QueueKeeps(log: seq<Row>, r: Replica, id: int)
    requires ReplicaInv(log, r) && HasId(log, id)
    ensures ReplicaInv(log, r.(queue := r.queue + [id]))
  {
    var s := r.(queue := r.queue + [id]);
    assert forall id :: Traced(r, id) ==> Traced(s, id);
  }

  lemma ReconnectKeeps(log: seq<Row>, r: Replica)
    requires ReplicaInv(log, r) && r.floor.phase.Idle?
    ensures ReplicaInv(log, r.(connected := true, floor := StartReconnect(r.floor)))
  {
    var s := r.(connected := true, floor := StartReconnect(r.floor));
    assert forall id :: Traced(r, id) ==> Traced(s, id);
  }

  lemma {:induction false} RunKeeps(u: World, steps: seq<Step>, limit: nat, w: World)
    requires Inv(u) && Leads(u, steps, limit, w)
    ensures Inv(w)
    decreases |steps|
  {
    if steps != [] {
      var k := |steps| - 1;
      var v :| Leads(u, steps[..k], limit, v) && Enabled(v, steps[k], limit) && w == Next(v, steps[k], limit);
      RunKeeps(u, steps[..k], limit, v);
      StepKeeps(v, steps[k], limit);
    }
  }

  // ------------------------------------------------------------ main results

  /** In step `k` of the run, event `c` committed while replica `r` had already
      looked past it, or `r` took its mark from a log that held `c`. */
  ghost predicate PassedAt(steps: seq<Step>, limit: nat, k: nat, r: nat, c: int)
    requires k < |steps|
  {
    exists v ::
      && Leads(EMPTY, steps[..k], limit, v)
      && Passes(v, steps[k], r, c)
  }

  ghost predicate Passes(v: World, s: Step, r: nat, c: int) {
    && r < |v.replicas|
    && (|| (s.Commit? && s.id == c && c <= Position(v.replicas[r].floor))
        || (s == ReadHead(r) && HasId(v.log, c)))
  }

  lemma NewlyBelow(v: World, s: Step, limit: nat, r: nat, c: int)
    requires Enabled(v, s, limit) && r < |Next(v, s, limit).replicas| && c in Next(v, s, limit).replicas[r].below
    ensures Passes(v, s, r, c) || (r < |v.replicas| && c in v.replicas[r].below)
  {
  }

  lemma {:induction false} BelowMeansPassed(steps: seq<Step>, limit: nat, w: World, r: nat, c: int)
    requires Leads(EMPTY, steps, limit, w) && r < |w.replicas| && c in w.replicas[r].below
    ensures exists k :: 0 <= k < |steps| && PassedAt(steps, limit, k, r, c)
    decreases |steps|
  {
    var k := |steps| - 1;
    var v :| Leads(EMPTY, steps[..k], limit, v) && Enabled(v, steps[k], limit) && w == Next(v, steps[k], limit);
    NewlyBelow(v, steps[k], limit, r, c);
    if Passes(v, steps[k], r, c) {
      assert PassedAt(steps, limit, k, r, c);
    } else {
      BelowMeansPassed(steps[..k], limit, v, r, c);
      var j :| 0 <= j < k && PassedAt(steps[..k], limit, j, r, c);
      assert steps[..k][..j] == steps[..j];
      assert PassedAt(steps, limit, j, r, c);
    }
  }

  /** Safety of every run: a replica publishes only committed events, and an
      event at or below its mark that it has not published had been passed when
      it committed, and its notification is still queued, was lost, arrived and
      could not be read, or went out before the replica listened. */
  lemma NothingOwedIsPassed(steps: seq<Step>, limit: nat, w: World, r: nat)
    requires Leads(EMPTY, steps, limit, w) && r < |w.replicas|
    ensures OnlyCommitted(w.log, w.replicas[r].floor)
    ensures forall c :: Row(c, true) in w.log && c <= w.replicas[r].floor.mark && c !in w.replicas[r].floor.published ==>
      && (exists k :: 0 <= k < |steps| && PassedAt(steps, limit, k, r, c))
      && var rep := w.replicas[r];
         c in rep.queue || InHand(rep.floor, c) || c in rep.lost || c in rep.unread || c in rep.before
  {
    RunKeeps(EMPTY, steps, limit, w);
    var rep := w.replicas[r];
    assert ReplicaInv(w.log, rep);
    forall c | Row(c, true) in w.log && c <= rep.floor.mark && c !in rep.floor.published
      ensures exists k :: 0 <= k < |steps| && PassedAt(steps, limit, k, r, c)
      ensures c in rep.queue || InHand(rep.floor, c) || c in rep.lost || c in rep.unread || c in rep.before
    {
      assert c <= Position(rep.floor) && c in rep.below;
      BelowMeansPassed(steps, limit, w, r, c);
      assert Traced(rep, Row(c, true).id);
    }
  }

  /** The mark of a replica never falls, whatever the run does. */
  lemma {:induction false} MarkNeverFalls(u: World, steps: seq<Step>, limit: nat, w: World, r: nat)
    requires Inv(u) && Leads(u, steps, limit, w) && r < |u.replicas|
    ensures r < |w.replicas| && Rises(u.replicas[r].floor, w.replicas[r].floor)
    decreases |steps|
  {
    if steps != [] {
      var k := |steps| - 1;
      var v :| Leads(u, steps[..k], limit, v) && Enabled(v, steps[k], limit) && w == Next(v, steps[k], limit);
      MarkNeverFalls(u, steps[..k], limit, v, r);
      RunKeeps(u, steps[..k], limit, v);
      assert ReplicaInv(v.log, v.replicas[r]);
      assert LastId(v.log, 0) >= 0 by {
        assert v.log != [] ==> v.log[|v.log| - 1] in v.log;
      }
      StepRaisesMark(v, steps[k], limit, r);
    }
  }

  lemma PageRaisesMark(log: seq<Row>, f: Floor, reply: PageReply, limit: nat)
    requires Answers(f, Seen(log, Page(reply)), limit) && WellPlaced(log, f)
    ensures Rises(f, OnPage(f, reply, limit))
  {
    if reply.PageRows? {
      BeforeIsSorted(reply.rows, f.phase.to, log, f.phase.cursor, limit);
    }
  }

  /** `g` is at least as far as `f` and has lost nothing `f` published. */
  ghost predicate Rises(f: Floor, g: Floor) {
    f.mark <= g.mark && f.published <= g.published
  }

  lemma StepRaisesMark(v: World, s: Step, limit: nat, r: nat)
    requires Enabled(v, s, limit) && r < |v.replicas|
    requires WellPlaced(v.log, v.replicas[r].floor) && LastId(v.log, 0) >= 0
    ensures r < |Next(v, s, limit).replicas|
    ensures Rises(v.replicas[r].floor, Next(v, s, limit).replicas[r].floor)
  {
    if s.ReadPage? && s.r == r {
      PageRaisesMark(v.log, v.replicas[r].floor, s.page, limit);
    }
  }
}
