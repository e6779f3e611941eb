/**
 The listener's floor as an object: `drain`, `on_pointer` and `on_reconnect`
 over a log that other transactions commit to while they run. Every call is
 proved to be a path of the cuts in `NotifyFloors`, so what `NotifyRuns` and
 `NotifyRecovery` prove of those paths holds of the object.
 */
module NotifyListener {
  import opened Basics
  import opened EventLogs
  import opened NotifyFloors
  import NotifyRuns
  import opened NotifyRecovery
  import opened NotifyScan

  /** The local fan-out: what was published on this replica, in order. */
  class Broadcast {
    var published: seq<int>

    constructor ()
      ensures published == []
    {
      published := [];
    }

    method Publish(id: int)
      modifies this
      ensures published == old(published) + [id]
    {
      published := published + [id];
    }
  }

  datatype HydrateResult = Hydrated | Missing | Failed | InvalidPayload | Backfilled

  class HydrateStats {
    var ok: nat
    var notFound: nat
    var failed: nat
    var invalidPayload: nat
    var backfilled: nat

    constructor ()
      ensures ok == notFound == failed == invalidPayload == backfilled == 0
    {
      ok, notFound, failed, invalidPayload, backfilled := 0, 0, 0, 0, 0;
    }

    method Record(result: HydrateResult)
      modifies this
      ensures ok == old(ok) + if result == Hydrated then 1 else 0
      ensures notFound == old(notFound) + if result == Missing then 1 else 0
      ensures failed == old(failed) + if result == Failed then 1 else 0
      ensures invalidPayload == old(invalidPayload) + if result == InvalidPayload then 1 else 0
      ensures backfilled == old(backfilled) + if result == Backfilled then 1 else 0
    {
      match result
      case Hydrated => ok := ok + 1;
      case Missing => notFound := notFound + 1;
      case Failed => failed := failed + 1;
      case InvalidPayload => invalidPayload := invalidPayload + 1;
      case Backfilled => backfilled := backfilled + 1;
    }
  }

  ghost function View(mark: int, phase: Phase, tx: Broadcast, stats: HydrateStats): Floor
    reads tx, stats
  {
    Floor(mark, phase, tx.published, stats.ok, stats.notFound, stats.failed, stats.backfilled)
  }

  function Shown(row: Row): seq<int> {
    if row.decodes then [row.id] else []
  }

  lemma DecodedExtends(page: seq<Row>, i: nat)
    requires i < |page|
    ensures Decoded(page[..i + 1]) == Decoded(page[..i]) + Shown(page[i])
  {
    assert page[..i + 1][..i] == page[..i];
  }

  /** A row reaches the bound exactly where the rows before it end. */
  lemma BoundReached(page: seq<Row>, to: Option<int>, i: nat)
    requires i < |page| && i <= |Before(page, to)|
    ensures Reaches(to, page[i].id) <==> i == |Before(page, to)|
  {
    var rows := Before(page, to);
    assert i < |rows| ==> page[i] == rows[i] && rows[i] in rows;
  }

  /** `tx` and `stats` have taken over what page `d` did. */
  twostate predicate Credited(tx: Broadcast, stats: HydrateStats, d: DrainState)
    reads tx, stats
  {
    && tx.published == old(tx.published) + d.published
    && stats.backfilled == old(stats.backfilled) + |d.published|
    && stats.failed == old(stats.failed) + d.skipped
    && stats.ok == old(stats.ok) && stats.notFound == old(stats.notFound)
  }

  /** Publish a row, or count it as failed when it does not decode. */
  method PublishRow(tx: Broadcast, stats: HydrateStats, row: Row)
    modifies tx, stats
    ensures tx.published == old(tx.published) + Shown(row)
    ensures stats.backfilled == old(stats.backfilled) + |Shown(row)|
    ensures stats.failed == old(stats.failed) + 1 - |Shown(row)|
    ensures stats.ok == old(stats.ok) && stats.notFound == old(stats.notFound)
  {
    if row.decodes {
      stats.Record(Backfilled);
      tx.Publish(row.id);
    } else {
      stats.Record(Failed);
    }
  }

  /** Publish the rows of a page that come before the bound. */
  method PublishPage(tx: Broadcast, stats: HydrateStats, after: int, to: Option<int>, page: seq<Row>, batch: nat)
    returns (cursor: int, status: DrainStatus)
    modifies tx, stats
    ensures var d := DrainPage(after, to, PageRows(page), batch);
      cursor == d.cursor && status == d.status && Credited(tx, stats, d)
  {
    cursor := after;
    ghost var bound := |Before(page, to)|;
    assert page[..bound] == Before(page, to);
    ghost var ids := [];
    var i := 0;
    while i < |page|
      invariant 0 <= i <= bound && ids == Decoded(page[..i]) && |ids| <= i
      invariant cursor == LastId(page[..i], after)
      invariant tx.published == old(tx.published) + ids
      invariant stats.backfilled == old(stats.backfilled) + |ids|
      invariant stats.failed == old(stats.failed) + (i - |ids|)
      invariant stats.ok == old(stats.ok) && stats.notFound == old(stats.notFound)
    {
      BoundReached(page, to, i);
      if Reaches(to, page[i].id) {
        return cursor, Complete;
      }
      DecodedExtends(page, i);
      PublishRow(tx, stats, page[i]);
      ids := ids + Shown(page[i]);
      cursor := page[i].id;
      i := i + 1;
    }
    status := if |page| < batch then Complete else More;
  }

  /** A full page that ends below the bound leaves fewer rows above the cursor. */
  lemma RoundProgresses(rows: seq<Row>, cursor: int, to: Option<int>, reply: PageReply, batch: nat)
    requires batch > 0 && (reply.PageRows? ==> IsPage(rows, cursor, batch, reply.rows))
    requires DrainPage(cursor, to, reply, batch).status == More
    ensures CountAbove(rows, DrainPage(cursor, to, reply, batch).cursor) < CountAbove(rows, cursor)
  {
    var page := reply.rows;
    assert Before(page, to) == page;
    assert page[|page| - 1] in page;
    CountAboveDrops(rows, cursor, page[|page| - 1].id, page[|page| - 1]);
  }

  /** A read met what the future held for it. */
  ghost predicate Meets(future: Future, to: Option<int>, seen: Seen) {
    && seen.rows == future.Ahead().rows
    && match seen.answer
       case Page(page) => page.PageFailed? <==> future.NextFails()
       case Event(event) => to.Some? && (event.Got? <==> !future.NextFails() && Row(to.value, true) in seen.rows)
  }

  ghost predicate Met(future: Future, to: Option<int>, trace: seq<Seen>) {
    forall i :: 0 <= i < |trace| ==> Meets(future.After(i), to, trace[i])
  }

  lemma MetExtends(future: Future, to: Option<int>, trace: seq<Seen>, seen: Seen)
    requires Met(future, to, trace) && Meets(future.After(|trace|), to, seen)
    ensures Met(future, to, trace + [seen])
  {
  }

  ghost predicate AllPages(trace: seq<Seen>) {
    forall i :: 0 <= i < |trace| ==> trace[i].answer.Page?
  }

  lemma MetIsCalm(future: Future, to: Option<int>, trace: seq<Seen>)
    requires Met(future, to, trace) && future.Quiet() && future.FaultFree()
    ensures Calm(future.rows, to, trace)
  {
    forall i | 0 <= i < |trace| ensures Faultless(future.rows, to, trace[i]) {
      future.AfterKeeps(i);
      future.AfterKeeps(i + 1);
      assert Meets(future.After(i), to, trace[i]);
    }
  }

  lemma MetIsStill(future: Future, to: Option<int>, trace: seq<Seen>)
    requires Met(future, to, trace) && future.Quiet() && AllPages(trace)
    ensures Still(future.rows, trace)
  {
    forall i | 0 <= i < |trace| ensures trace[i].rows == future.rows {
      future.AfterKeeps(i + 1);
      assert Meets(future.After(i), to, trace[i]);
    }
  }

  lemma StillDrainScans(log: seq<Row>, f: Floor, to: Option<int>, trace: seq<Seen>, batch: nat, base: Floor, reached: int, complete: bool)
    requires Sorted(log) && f.phase.Draining? && f.phase.to == to && (to.Some? ==> f.phase.cursor < to.value)
    requires Runs(f, trace, batch, AfterDrain(base, to, reached, complete)) && Still(log, trace)
    ensures base.published == f.published + Scan(log, f.phase.cursor, ScannedTo(to, reached, complete))
  {
    DrainScans(log, f, f.phase.cursor, to, trace, batch, AfterDrain(base, to, reached, complete));
  }

  /** The id up to which a drain stands for one scan. */
  function ScannedTo(to: Option<int>, reached: int, complete: bool): int {
    if complete && to.Some? then to.value - 1 else reached
  }

  /** Read a page and publish it. */
  method ReadAndPublish(log: EventLog, tx: Broadcast, stats: HydrateStats, cursor: int, to: Option<int>, batch: nat)
    returns (next: int, status: DrainStatus, ghost reply: PageReply)
    requires log.future.Valid() && batch > 0
    modifies log, tx, stats
    ensures log.future == old(log.future).Ahead()
    ensures reply.PageFailed? <==> old(log.future).NextFails()
    ensures reply.PageRows? ==> IsPage(log.future.rows, cursor, batch, reply.rows)
    ensures var d := DrainPage(cursor, to, reply, batch);
      next == d.cursor && status == d.status && Credited(tx, stats, d)
    ensures status == More ==> CountAbove(log.future.rows, next) < CountAbove(log.future.rows, cursor)
  {
    var answer := log.PageAfter(cursor, batch);
    reply := answer;
    match answer
    case PageFailed =>
      next, status := cursor, Stopped;
    case PageRows(page) =>
      next, status := PublishPage(tx, stats, cursor, to, page, batch);
      if status == More {
        RoundProgresses(log.future.rows, cursor, to, answer, batch);
      }
  }

  /** Where a drain stands that has come to `cursor`. */
  function Drained(base: Floor, to: Option<int>, cursor: int, status: DrainStatus): Floor {
    if status == More then base.(phase := Draining(cursor, to)) else AfterDrain(base, to, cursor, status == Complete)
  }

  /** A floor that credits the page it read has absorbed it. */
  lemma PageAbsorbed(future: Future, f: Floor, cursor: int, to: Option<int>, reply: PageReply, batch: nat, g: Floor)
    requires f.phase == Draining(cursor, to)
    requires reply.PageFailed? <==> future.NextFails()
    requires reply.PageRows? ==> IsPage(future.Ahead().rows, cursor, batch, reply.rows)
    requires g == Credit(f, DrainPage(cursor, to, reply, batch)).(phase := g.phase)
    ensures var seen := Seen(future.Ahead().rows, Page(reply));
      var d := DrainPage(cursor, to, reply, batch);
      && Meets(future, to, seen) && Answers(f, seen, batch)
      && Absorb(f, seen, batch) == Drained(g, to, d.cursor, d.status)
      && (d.status == Stopped ==> future.NextFails())
  {
  }

  /** One round of the drain is one absorbed page. */
  method DrainRound(log: EventLog, tx: Broadcast, stats: HydrateStats, cursor: int, to: Option<int>, batch: nat, ghost f: Floor)
    returns (next: int, status: DrainStatus, ghost seen: Seen)
    requires log.future.Valid() && batch > 0 && f == View(f.mark, Draining(cursor, to), tx, stats)
    modifies log, tx, stats
    ensures log.future == old(log.future).Ahead()
    ensures seen.answer.Page? && Meets(old(log.future), to, seen) && Answers(f, seen, batch)
    ensures Absorb(f, seen, batch) == Drained(View(f.mark, Idle, tx, stats), to, next, status)
    ensures status == More ==> CountAbove(log.future.rows, next) < CountAbove(log.future.rows, cursor)
    ensures status == Stopped ==> old(log.future).NextFails()
  {
    ghost var future := log.future;
    ghost var reply;
    next, status, reply := ReadAndPublish(log, tx, stats, cursor, to, batch);
    seen := Seen(log.future.rows, Page(reply));
    ghost var g := View(f.mark, Idle, tx, stats);
    assert g == Credit(f, DrainPage(cursor, to, reply, batch)).(phase := Idle);
    PageAbsorbed(future, f, cursor, to, reply, batch, g);
  }

  /** The reads of a drain so far, and what the floor has become by them. */
  ghost predicate Underway(future: Future, start: Floor, to: Option<int>, trace: seq<Seen>, batch: nat, at: Floor) {
    Met(future, to, trace) && AllPages(trace) && Runs(start, trace, batch, at)
  }

  /** One more page of a drain: the path grows by it, and a read that failed was
      not to be without fault. */
  lemma RoundTaken(future: Future, start: Floor, to: Option<int>, trace: seq<Seen>, batch: nat, at: Floor, seen: Seen)
    requires Underway(future, start, to, trace, batch, at)
    requires seen.answer.Page? && Meets(future.After(|trace|), to, seen) && Answers(at, seen, batch)
    ensures Underway(future, start, to, trace + [seen], batch, Absorb(at, seen, batch))
    ensures future.After(|trace|).NextFails() ==> !future.FaultFree()
  {
    RunsExtend(start, trace, batch, at, seen);
    MetExtends(future, to, trace, seen);
    future.AfterKeeps(|trace|);
  }

  lemma StaysValid(future: Future, n: nat)
    requires future.Valid()
    ensures future.After(n).Valid()
  {
    future.AfterKeeps(n);
  }

  /** On a log that stands still a drain is one scan of its range. */
  lemma DrainIsScan(future: Future, start: Floor, from: int, to: Option<int>, trace: seq<Seen>, batch: nat,
                    base: Floor, reached: int, complete: bool)
    requires future.Valid() && start.phase == Draining(from, to)
    requires Underway(future, start, to, trace, batch, AfterDrain(base, to, reached, complete))
    requires future.Quiet() && (to.Some? ==> from < to.value)
    ensures base.published == start.published + Scan(future.After(|trace|).rows, from, ScannedTo(to, reached, complete))
  {
    future.AfterKeeps(|trace|);
    MetIsStill(future, to, trace);
    StillDrainScans(future.rows, start, to, trace, batch, base, reached, complete);
  }

  /** Publish every event with `from < id`, below the bound when there is one,
      in pages; stop at the first read that fails. On a log that stands still
      this is one scan of the range, whatever the page size. */
  method Drain(log: EventLog, tx: Broadcast, stats: HydrateStats, from: int, to: Option<int>, batch: nat, ghost mark: int)
    returns (reached: int, complete: bool, ghost trace: seq<Seen>)
    requires log.future.Valid() && batch > 0
    modifies log, tx, stats
    ensures log.future == old(log.future).After(|trace|) && log.future.Valid()
    ensures Underway(old(log.future), old(View(mark, Draining(from, to), tx, stats)), to, trace, batch,
                     AfterDrain(View(mark, Idle, tx, stats), to, reached, complete))
    ensures old(log.future).FaultFree() ==> complete
    ensures old(log.future).Quiet() && (to.Some? ==> from < to.value) ==>
      tx.published == old(tx.published) + Scan(log.future.rows, from, ScannedTo(to, reached, complete))
  {
    var cursor, status := from, More;
    trace := [];
    ghost var before := log.future;
    ghost var start := View(mark, Draining(from, to), tx, stats);
    ghost var at := start;
    while status == More
      invariant log.future == before.After(|trace|)
      invariant Underway(before, start, to, trace, batch, at)
      invariant at == Drained(View(mark, Idle, tx, stats), to, cursor, status)
      invariant status == Stopped ==> !before.FaultFree()
      decreases status == More, |log.future.turns|, CountAbove(log.future.rows, cursor)
    {
      ghost var seen;
      StaysValid(before, |trace|);
      cursor, status, seen := DrainRound(log, tx, stats, cursor, to, batch, at);
      RoundTaken(before, start, to, trace, batch, at, seen);
      at := Absorb(at, seen, batch);
      trace := trace + [seen];
    }
    reached, complete := cursor, status == Complete;
    StaysValid(before, |trace|);
    if before.Quiet() && (to.Some? ==> from < to.value) {
      DrainIsScan(before, start, from, to, trace, batch, View(mark, Idle, tx, stats), reached, complete);
    }
  }

  /** A drain never goes back, whatever its reads meet. */
  lemma {:induction false} DrainAdvances(f: Floor, trace: seq<Seen>, batch: nat, g: Floor)
    requires f.phase.Draining? && f.phase.to.None? && Runs(f, trace, batch, g) && AllPages(trace)
    ensures Position(g) >= f.phase.cursor && (g.phase.Idle? || (g.phase.Draining? && g.phase.to.None?))
    decreases |trace|
  {
    if trace != [] {
      var k := |trace| - 1;
      var m :| Runs(f, trace[..k], batch, m) && Answers(m, trace[k], batch) && g == Absorb(m, trace[k], batch);
      DrainAdvances(f, trace[..k], batch, m);
      var reply := trace[k].answer.page;
      if reply.PageRows? {
        NotifyRuns.BeforeIsSorted(reply.rows, m.phase.to, trace[k].rows, m.phase.cursor, batch);
      }
    }
  }

  /** What one call of the floor did, as a path of cuts. */
  ghost predicate Handled(future: Future, to: Option<int>, trace: seq<Seen>, before: Floor, after: Floor) {
    && before.phase.Idle? && after.phase.Idle?
    && Met(future, to, trace)
    && Runs(Began(before, to), trace, BACKFILL_BATCH, after)
    && before.mark <= after.mark
  }

  lemma GetSettles(f: Floor, seen: Seen, batch: nat)
    requires seen.answer.Event? && Answers(f, seen, batch)
    ensures Absorb(f, seen, batch).phase.Idle? && f.mark <= Absorb(f, seen, batch).mark
  {
  }

  /** A pointer's back-fill and the read of its own event are one call. */
  lemma PointerHandled(future: Future, to: Option<int>, trace: seq<Seen>, before: Floor, f: Floor, seen: Seen)
    requires before.phase.Idle? && Met(future, to, trace)
    requires Runs(Began(before, to), trace, BACKFILL_BATCH, f) && f.mark == before.mark
    requires Meets(future.After(|trace|), to, seen) && seen.answer.Event? && Answers(f, seen, BACKFILL_BATCH)
    ensures Handled(future, to, trace + [seen], before, Absorb(f, seen, BACKFILL_BATCH))
  {
    GetSettles(f, seen, BACKFILL_BATCH);
    RunsExtend(Began(before, to), trace, BACKFILL_BATCH, f, seen);
    MetExtends(future, to, trace, seen);
  }

  /** A call that no fault and no commit disturbs recovers all it can. */
  lemma CalmCallRecovers(future: Future, to: Option<int>, trace: seq<Seen>, before: Floor, after: Floor)
    requires Handled(future, to, trace, before, after) && future.Valid() && future.Quiet() && future.FaultFree()
    requires 0 <= before.mark <= LastId(future.rows, 0)
    ensures after.mark == CalmMark(future.rows, before.mark, to)
    ensures Filled(future.rows, after, before.mark, if to.Some? then to.value else LastId(future.rows, 0))
  {
    MetIsCalm(future, to, trace);
    CalmRun(future.rows, before, to, trace, BACKFILL_BATCH, after);
  }

  /** The listener's high-water mark and what it does on each input. */
  class NotifyFloor {
    const log: EventLog
    const tx: Broadcast
    const stats: HydrateStats
    var lastSeen: int

    ghost function State(): Floor
      reads this, tx, stats
    {
      View(lastSeen, Idle, tx, stats)
    }

    constructor (log: EventLog, tx: Broadcast, stats: HydrateStats, head: int)
      ensures this.log == log && this.tx == tx && this.stats == stats && lastSeen == head
    {
      this.log, this.tx, this.stats, this.lastSeen := log, tx, stats, head;
    }

    /** Start at the log's head; without the head there is no floor. */
    static method Start(log: EventLog, tx: Broadcast, stats: HydrateStats) returns (floor: Result<NotifyFloor, ()>)
      requires log.future.Valid()
      modifies log
      ensures log.future == old(log.future).Ahead()
      ensures floor.Err? <==> old(log.future).NextFails()
      ensures floor.Ok? ==> fresh(floor.value) && floor.value.lastSeen == LastId(log.future.rows, 0)
      ensures floor.Ok? ==> floor.value.log == log && floor.value.tx == tx && floor.value.stats == stats
    {
      var head := log.Head();
      match head
      case Err(_) => floor := Err(());
      case Ok(id) =>
        var f := new NotifyFloor(log, tx, stats, id);
        floor := Ok(f);
    }

    /** Read the pointer's own event and settle the mark. */
    method Hydrate(id: int, covered: int, ghost f: Floor) returns (ghost seen: Seen)
      requires log.future.Valid() && f == View(lastSeen, Hydrating(id, covered), tx, stats)
      modifies log, tx, stats, `lastSeen
      ensures log.future == old(log.future).Ahead()
      ensures seen.answer.Event? && Meets(old(log.future), Some(id), seen) && Answers(f, seen, BACKFILL_BATCH)
      ensures State() == Absorb(f, seen, BACKFILL_BATCH)
    {
      var reply := log.Get(id);
      seen := Seen(log.future.rows, Event(reply));
      var delivered := reply.Got?;
      match reply {
        case Got =>
          stats.Record(Hydrated);
          tx.Publish(id);
        case NotFound => stats.Record(Missing);
        case Unreadable => stats.Record(Failed);
      }
      var reached := if delivered && covered >= id - 1 then Max(covered, id) else covered;
      lastSeen := Max(lastSeen, reached);
    }

    /** Back-fill what the pointer jumped over; up to `covered` everything was
        delivered or has its own notification to come. */
    method Cover(id: int) returns (covered: int, ghost trace: seq<Seen>)
      requires log.future.Valid()
      modifies log, tx, stats
      ensures log.future == old(log.future).After(|trace|) && log.future.Valid()
      ensures Met(old(log.future), Some(id), trace)
      ensures Runs(StartPointer(old(State()), id), trace, BACKFILL_BATCH, View(lastSeen, Hydrating(id, covered), tx, stats))
    {
      covered, trace := lastSeen, [];
      if id > lastSeen + 1 {
        var reached, complete;
        reached, complete, trace := Drain(log, tx, stats, lastSeen, Some(id), BACKFILL_BATCH, lastSeen);
        covered := if complete then id - 1 else reached;
      }
    }

    /** A notification pointing at `id`. */
    method OnPointer(id: int) returns (ghost trace: seq<Seen>)
      requires log.future.Valid()
      modifies log, tx, stats, `lastSeen
      ensures log.future == old(log.future).After(|trace|) && log.future.Valid()
      ensures Handled(old(log.future), Some(id), trace, old(State()), State())
    {
      ghost var before, begun := log.future, State();
      var covered;
      covered, trace := Cover(id);
      ghost var f := View(lastSeen, Hydrating(id, covered), tx, stats);
      ghost var seen := Hydrate(id, covered, f);
      PointerHandled(before, Some(id), trace, begun, f, seen);
      trace := trace + [seen];
      before.AfterKeeps(|trace|);
    }

    /** The listener reconnected: drain everything above the mark. */
    method OnReconnect() returns (ghost trace: seq<Seen>)
      requires log.future.Valid()
      modifies log, tx, stats, `lastSeen
      ensures log.future == old(log.future).After(|trace|) && log.future.Valid()
      ensures Handled(old(log.future), None, trace, old(State()), State())
    {
      ghost var start := StartReconnect(State());
      var reached, complete;
      reached, complete, trace := Drain(log, tx, stats, lastSeen, None, BACKFILL_BATCH, lastSeen);
      DrainAdvances(start, trace, BACKFILL_BATCH, AfterDrain(View(lastSeen, Idle, tx, stats), None, reached, complete));
      lastSeen := reached;
    }
  }
}
