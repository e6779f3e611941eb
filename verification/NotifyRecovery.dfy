/**
 Recovery: what one pointer or one reconnect achieves when nothing fails and
 nothing commits while it runs, from whatever state earlier faults left.
 */
module NotifyRecovery {
  import opened Basics
  import opened EventLogs
  import opened NotifyFloors
  import opened NotifyRuns

  /** A read of the still log that does not fail. */
  ghost predicate Faultless(log: seq<Row>, to: Option<int>, s: Seen) {
    && s.rows == log
    && match s.answer
       case Page(page) => page.PageRows?
       case Event(event) => to.Some? && (event.Got? <==> Row(to.value, true) in log)
  }

  ghost predicate Calm(log: seq<Row>, to: Option<int>, trace: seq<Seen>) {
    forall i :: 0 <= i < |trace| ==> Faultless(log, to, trace[i])
  }

  function Began(f: Floor, to: Option<int>): Floor
    requires f.phase.Idle?
  {
    if to.Some? then StartPointer(f, to.value) else StartReconnect(f)
  }

  /** Everything decodable above `from` and up to `upTo` is published. */
  ghost predicate Filled(log: seq<Row>, g: Floor, from: int, upTo: int) {
    forall c :: Row(c, true) in log && from < c <= upTo ==> c in g.published
  }

  /** Where the mark ends: at the pointer, or just below a pointer that does
      not decode, or at the newest id; never lower than it was. */
  ghost function CalmMark(log: seq<Row>, mark: int, to: Option<int>): int {
    if to.None? then LastId(log, 0)
    else Max(mark, if Row(to.value, true) in log then to.value else to.value - 1)
  }

  /** What holds after each calm read of a reaction that began at `f`. */
  ghost predicate OnCourse(log: seq<Row>, f: Floor, to: Option<int>, g: Floor) {
    match g.phase
    case Starting => false
    case Idle => g.mark == CalmMark(log, f.mark, to) && Filled(log, g, f.mark, if to.Some? then to.value else LastId(log, 0))
    case Draining(cursor, bound) =>
      && bound == to && g.mark == f.mark && f.mark <= cursor <= LastId(log, 0)
      && (to.Some? ==> cursor < to.value)
      && Filled(log, g, f.mark, cursor)
    case Hydrating(id, covered) =>
      && to == Some(id) && g.mark == f.mark && covered == Max(f.mark, id - 1)
      && Filled(log, g, f.mark, id - 1)
  }

  lemma ShortPageEnds(log: seq<Row>, cursor: int, limit: nat, page: seq<Row>)
    requires Sorted(log) && IsPage(log, cursor, limit, page) && 0 <= cursor <= LastId(log, 0)
    requires |page| < limit
    ensures LastId(page, cursor) == LastId(log, 0)
  {
    LastIdIsHead(log);
    if page != [] {
      assert page[|page| - 1] in page;
    }
    if log != [] {
      var last := log[|log| - 1];
      assert last in log;
      if last in page {
        var i :| 0 <= i < |page| && page[i] == last;
      }
    }
  }

  lemma CalmPage(log: seq<Row>, f: Floor, to: Option<int>, m: Floor, page: seq<Row>, limit: nat)
    requires Sorted(log) && OnCourse(log, f, to, m) && m.phase.Draining? && 0 <= f.mark
    requires IsPage(log, m.phase.cursor, limit, page)
    ensures OnCourse(log, f, to, OnPage(m, PageRows(page), limit))
  {
    var g := OnPage(m, PageRows(page), limit);
    var cursor := m.phase.cursor;
    var d := DrainPage(cursor, to, PageRows(page), limit);
    LastIdIsHead(log);
    BeforeIsSorted(page, to, log, cursor, limit);
    assert d.cursor <= LastId(log, 0);
    assert to.Some? ==> d.cursor < to.value by {
      var rows := Before(page, to);
      if rows != [] {
        assert rows[|rows| - 1] in rows;
      }
    }
    if d.status == Complete && to.None? {
      assert Before(page, to) == page;
      ShortPageEnds(log, cursor, limit, page);
    }
    forall c | Row(c, true) in log && f.mark < c && (c <= d.cursor || (d.status == Complete && !Reaches(to, c)))
      ensures c in g.published
    {
      if c <= cursor {
        assert c in m.published;
      } else {
        PageSweeps(log, cursor, to, page, limit, c);
      }
    }
  }

  lemma CalmGet(log: seq<Row>, f: Floor, to: Option<int>, m: Floor, s: Seen)
    requires OnCourse(log, f, to, m) && m.phase.Hydrating? && s.answer.Event? && Faultless(log, to, s)
    ensures OnCourse(log, f, to, OnGet(m, s.answer.event))
  {
    var g := OnGet(m, s.answer.event);
    forall c | Row(c, true) in log && f.mark < c <= to.value
      ensures c in g.published
    {
      if c < to.value {
        assert c in m.published;
      }
    }
  }

  lemma {:induction false} CalmRun(log: seq<Row>, f: Floor, to: Option<int>, trace: seq<Seen>, limit: nat, g: Floor)
    requires Sorted(log) && f.phase.Idle? && 0 <= f.mark <= LastId(log, 0)
    requires Runs(Began(f, to), trace, limit, g) && Calm(log, to, trace)
    ensures OnCourse(log, f, to, g)
    decreases |trace|
  {
    if trace != [] {
      var k := |trace| - 1;
      var m :| Runs(Began(f, to), trace[..k], limit, m) && Answers(m, trace[k], limit) && g == Absorb(m, trace[k], limit);
      CalmRun(log, f, to, trace[..k], limit, m);
      assert Faultless(log, to, trace[k]);
      if trace[k].answer.Page? {
        CalmPage(log, f, to, m, trace[k].answer.page.rows, limit);
      } else {
        CalmGet(log, f, to, m, trace[k]);
      }
    }
  }

  /** After any history, one calm reconnect publishes every decodable event
      above the old mark and leaves the mark at the newest id; one calm pointer
      does so up to its own id, and brings the mark to that id exactly when the
      event decodes or the mark was already there. */
  lemma Recovers(steps: seq<Step>, limit: nat, w: World, r: nat, to: Option<int>, trace: seq<Seen>, g: Floor)
    requires Leads(EMPTY, steps, limit, w) && r < |w.replicas| && w.replicas[r].floor.phase.Idle?
    requires Runs(Began(w.replicas[r].floor, to), trace, limit, g) && Calm(w.log, to, trace) && g.phase.Idle?
    ensures var mark := w.replicas[r].floor.mark;
      && Filled(w.log, g, mark, if to.Some? then to.value else LastId(w.log, 0))
      && (to.None? ==> g.mark == LastId(w.log, 0))
      && (to.Some? && to.value >= mark ==>
            (g.mark == to.value <==> Row(to.value, true) in w.log || mark == to.value))
      && g.mark >= mark
  {
    RunKeeps(EMPTY, steps, limit, w);
    assert ReplicaInv(w.log, w.replicas[r]);
    CalmRun(w.log, w.replicas[r].floor, to, trace, limit, g);
  }

  // ------------------------------------------------------------- what is counted

  /** How many events were read with this result. */
  function ReadAs(trace: seq<Seen>, reply: GetReply): nat {
    if trace == [] then 0
    else ReadAs(trace[..|trace| - 1], reply) + if trace[|trace| - 1].answer == Event(reply) then 1 else 0
  }

  /** The rows that an answer brings from below the bound. */
  function Brought(answer: Answer, to: Option<int>): seq<Row> {
    if answer.Page? && answer.page.PageRows? then Before(answer.page.rows, to) else []
  }

  function Passed(trace: seq<Seen>, to: Option<int>): seq<Row> {
    if trace == [] then [] else Passed(trace[..|trace| - 1], to) + Brought(trace[|trace| - 1].answer, to)
  }

  /** The counters after a call tell exactly what it read: each event read by its
      result, each row passed as published or, if it does not decode, as failed. */
  ghost predicate Tallied(f: Floor, to: Option<int>, trace: seq<Seen>, g: Floor) {
    && g.ok == f.ok + ReadAs(trace, Got) && g.notFound == f.notFound + ReadAs(trace, NotFound)
    && g.backfilled == f.backfilled + |Decoded(Passed(trace, to))|
    && g.failed == f.failed + ReadAs(trace, Unreadable) + (|Passed(trace, to)| - |Decoded(Passed(trace, to))|)
    && (g.phase.Draining? ==> g.phase.to == to)
  }

  /** What one answer adds to the counters of a floor that waits for it. */
  ghost predicate Adds(m: Floor, answer: Answer, g: Floor, to: Option<int>) {
    var rows := Brought(answer, to);
    && g.ok == m.ok + (if answer == Event(Got) then 1 else 0)
    && g.notFound == m.notFound + (if answer == Event(NotFound) then 1 else 0)
    && g.backfilled == m.backfilled + |Decoded(rows)|
    && g.failed == m.failed + (if answer == Event(Unreadable) then 1 else 0) + (|rows| - |Decoded(rows)|)
    && (g.phase.Draining? ==> g.phase.to == to)
  }

  lemma PageAdds(m: Floor, page: PageReply, limit: nat, to: Option<int>)
    requires m.phase.Draining? && m.phase.to == to
    ensures Adds(m, Page(page), OnPage(m, page, limit), to)
  {
  }

  lemma GetAdds(m: Floor, reply: GetReply, to: Option<int>)
    requires m.phase.Hydrating?
    ensures Adds(m, Event(reply), OnGet(m, reply), to)
  {
  }

  lemma AbsorbAdds(m: Floor, s: Seen, limit: nat, to: Option<int>)
    requires Answers(m, s, limit) && (m.phase.Draining? ==> m.phase.to == to)
    ensures Adds(m, s.answer, Absorb(m, s, limit), to)
  {
    match s.answer {
      case Page(page) => PageAdds(m, page, limit, to);
      case Event(reply) => GetAdds(m, reply, to);
    }
  }

  lemma BeganTallied(f: Floor, to: Option<int>)
    requires f.phase.Idle?
    ensures Tallied(f, to, [], Began(f, to))
  {
  }

  lemma PassedSnoc(trace: seq<Seen>, s: Seen, to: Option<int>)
    ensures |Passed(trace + [s], to)| == |Passed(trace, to)| + |Brought(s.answer, to)|
    ensures |Decoded(Passed(trace + [s], to))| == |Decoded(Passed(trace, to))| + |Decoded(Brought(s.answer, to))|
  {
    assert (trace + [s])[..|trace|] == trace;
    DecodedConcat(Passed(trace, to), Brought(s.answer, to));
  }

  lemma ReadAsSnoc(trace: seq<Seen>, s: Seen, reply: GetReply)
    ensures ReadAs(trace + [s], reply) == ReadAs(trace, reply) + if s.answer == Event(reply) then 1 else 0
  {
    assert (trace + [s])[..|trace|] == trace;
  }

  lemma TallyGrows(f: Floor, to: Option<int>, trace: seq<Seen>, m: Floor, s: Seen, g: Floor)
    requires Tallied(f, to, trace, m) && Adds(m, s.answer, g, to)
    ensures Tallied(f, to, trace + [s], g)
  {
    PassedSnoc(trace, s, to);
    ReadAsSnoc(trace, s, Got);
    ReadAsSnoc(trace, s, NotFound);
    ReadAsSnoc(trace, s, Unreadable);
  }

  lemma TallyStep(f: Floor, to: Option<int>, init: seq<Seen>, s: Seen, m: Floor, limit: nat)
    requires Tallied(f, to, init, m) && Answers(m, s, limit)
    ensures Tallied(f, to, init + [s], Absorb(m, s, limit))
  {
    var g := Absorb(m, s, limit);
    AbsorbAdds(m, s, limit, to);
    TallyGrows(f, to, init, m, s, g);
  }

  lemma TallySame(f: Floor, to: Option<int>, a: seq<Seen>, b: seq<Seen>, g: Floor)
    requires Tallied(f, to, a, g) && a == b
    ensures Tallied(f, to, b, g)
  {
  }

  lemma TallyLast(f: Floor, to: Option<int>, trace: seq<Seen>, m: Floor, limit: nat, g: Floor)
    requires trace != [] && Tallied(f, to, trace[..|trace| - 1], m) && Answers(m, trace[|trace| - 1], limit)
    requires g == Absorb(m, trace[|trace| - 1], limit)
    ensures Tallied(f, to, trace, g)
  {
    var init, s := trace[..|trace| - 1], trace[|trace| - 1];
    TallyStep(f, to, init, s, m, limit);
    TallySame(f, to, init + [s], trace, g);
  }

  /** The hydrate statistics count what was read: over every run of a call, with
      faults or without. */
  lemma {:induction false} CountersTell(f: Floor, to: Option<int>, trace: seq<Seen>, limit: nat, g: Floor)
    requires f.phase.Idle? && Runs(Began(f, to), trace, limit, g)
    ensures Tallied(f, to, trace, g)
    decreases |trace|
  {
    if trace != [] {
      var k := |trace| - 1;
      var m := LastRead(Began(f, to), trace, limit, g);
      CountersTell(f, to, trace[..k], limit, m);
      TallyLast(f, to, trace, m, limit, g);
    } else {
      BeganTallied(f, to);
    }
  }

  // --------------------------------------------------------------- settling down

  /** One call that meets no fault and no commit. */
  ghost predicate CalmCall(log: seq<Row>, f: Floor, to: Option<int>, trace: seq<Seen>, limit: nat, g: Floor) {
    && f.phase.Idle? && Runs(Began(f, to), trace, limit, g) && Calm(log, to, trace) && g.phase.Idle?
  }

  /** Such calls, one after another. */
  ghost predicate CalmCalls(log: seq<Row>, f: Floor, calls: seq<Option<int>>, limit: nat, g: Floor)
    decreases |calls|
  {
    if calls == [] then f == g
    else exists m, trace :: CalmCall(log, f, calls[0], trace, limit, m) && CalmCalls(log, m, calls[1..], limit, g)
  }

  lemma AbsorbPublishes(m: Floor, s: Seen, limit: nat)
    requires Answers(m, s, limit)
    ensures m.published <= Absorb(m, s, limit).published
  {
  }

  lemma LastRead(f: Floor, trace: seq<Seen>, limit: nat, g: Floor) returns (m: Floor)
    requires Runs(f, trace, limit, g) && trace != []
    ensures var k := |trace| - 1;
      Runs(f, trace[..k], limit, m) && Answers(m, trace[k], limit) && g == Absorb(m, trace[k], limit)
  {
    var k := |trace| - 1;
    m :| Runs(f, trace[..k], limit, m) && Answers(m, trace[k], limit) && g == Absorb(m, trace[k], limit);
  }

  lemma {:induction false} PublishedGrows(f: Floor, trace: seq<Seen>, limit: nat, g: Floor)
    requires Runs(f, trace, limit, g)
    ensures f.published <= g.published
    decreases |trace|
  {
    if trace != [] {
      var m := LastRead(f, trace, limit, g);
      PublishedGrows(f, trace[..|trace| - 1], limit, m);
      AbsorbPublishes(m, trace[|trace| - 1], limit);
    }
  }

  /** A calm pointer publishes its own event, wherever the mark is. */
  lemma PointerPublishes(log: seq<Row>, f: Floor, id: int, trace: seq<Seen>, limit: nat, g: Floor)
    requires Sorted(log) && 0 <= f.mark <= LastId(log, 0) && Row(id, true) in log
    requires CalmCall(log, f, Some(id), trace, limit, g)
    ensures id in g.published
  {
    var k := |trace| - 1;
    var m := LastRead(Began(f, Some(id)), trace, limit, g);
    CalmRun(log, f, Some(id), trace[..k], limit, m);
    assert Faultless(log, Some(id), trace[k]);
  }

  /** A call that catches up with the newest id: a reconnect, or a pointer to it. */
  predicate CatchesUp(log: seq<Row>, to: Option<int>) {
    to.None? || to.value == LastId(log, 0)
  }

  /** What one calm call leaves: published before, pointed at, or above the mark
      of a call that catches up; still above the mark, or published; and a mark
      in range. */
  lemma CallSettles(log: seq<Row>, f: Floor, to: Option<int>, trace: seq<Seen>, limit: nat, g: Floor, c: int)
    requires Sorted(log) && 0 <= f.mark <= LastId(log, 0) && (to.Some? ==> HasId(log, to.value))
    requires CalmCall(log, f, to, trace, limit, g) && Row(c, true) in log
    ensures c in f.published || to == Some(c) || (c > f.mark && CatchesUp(log, to)) ==> c in g.published
    ensures c > f.mark ==> c in g.published || c > g.mark
    ensures 0 <= g.mark <= LastId(log, 0)
  {
    LastIdIsHead(log);
    CalmRun(log, f, to, trace, limit, g);
    PublishedGrows(Began(f, to), trace, limit, g);
    if to == Some(c) {
      PointerPublishes(log, f, c, trace, limit, g);
    }
  }

  lemma FirstCall(log: seq<Row>, f: Floor, calls: seq<Option<int>>, limit: nat, g: Floor)
    returns (m: Floor, trace: seq<Seen>)
    requires CalmCalls(log, f, calls, limit, g) && calls != []
    ensures CalmCall(log, f, calls[0], trace, limit, m) && CalmCalls(log, m, calls[1..], limit, g)
  {
    m, trace :| CalmCall(log, f, calls[0], trace, limit, m) && CalmCalls(log, m, calls[1..], limit, g);
  }

  lemma CalledLater(calls: seq<Option<int>>, to: Option<int>)
    requires calls != []
    ensures to in calls <==> calls[0] == to || to in calls[1..]
  {
  }

  ghost predicate CatchUp(log: seq<Row>, calls: seq<Option<int>>) {
    exists to :: to in calls && CatchesUp(log, to)
  }

  lemma CatchUpLater(log: seq<Row>, calls: seq<Option<int>>)
    requires CatchUp(log, calls)
    ensures calls != [] && (CatchesUp(log, calls[0]) || CatchUp(log, calls[1..]))
  {
    var to :| to in calls && CatchesUp(log, to);
    CalledLater(calls, to);
  }

  lemma {:induction false} CallsSettle(log: seq<Row>, f: Floor, calls: seq<Option<int>>, limit: nat, g: Floor, c: int)
    requires Sorted(log) && 0 <= f.mark <= LastId(log, 0) && forall id :: Some(id) in calls ==> HasId(log, id)
    requires CalmCalls(log, f, calls, limit, g) && Row(c, true) in log
    requires c in f.published || Some(c) in calls || (c > f.mark && CatchUp(log, calls))
    ensures c in g.published
    decreases |calls|
  {
    if calls != [] {
      var m, trace := FirstCall(log, f, calls, limit, g);
      CalledLater(calls, Some(c));
      if CatchUp(log, calls) {
        CatchUpLater(log, calls);
      }
      CallSettles(log, f, calls[0], trace, limit, m, c);
      CallsSettle(log, m, calls[1..], limit, g, c);
    }
  }

  /** Everything arrives: after any history, once faults stop, calls among which
      one catches up and one points at each notification still queued or not yet
      read leave every decodable committed event published, except one that the
      floor had passed when it committed and whose notification was lost or went
      out before the replica listened. */
  lemma EverythingArrives(steps: seq<Step>, limit: nat, w: World, r: nat, calls: seq<Option<int>>, g: Floor)
    requires Leads(EMPTY, steps, limit, w) && r < |w.replicas| && w.replicas[r].floor.phase.Idle?
    requires CatchUp(w.log, calls) && CalmCalls(w.log, w.replicas[r].floor, calls, limit, g)
    requires forall id :: Some(id) in calls ==> HasId(w.log, id)
    requires forall id :: id in w.replicas[r].queue || id in w.replicas[r].unread ==> Some(id) in calls
    ensures forall c :: Row(c, true) in w.log && c !in g.published ==>
      && (exists k :: 0 <= k < |steps| && PassedAt(steps, limit, k, r, c))
      && (c in w.replicas[r].lost || c in w.replicas[r].before)
  {
    var rep := w.replicas[r];
    RunKeeps(EMPTY, steps, limit, w);
    assert ReplicaInv(w.log, rep);
    NothingOwedIsPassed(steps, limit, w, r);
    forall c | Row(c, true) in w.log && c !in g.published
      ensures exists k :: 0 <= k < |steps| && PassedAt(steps, limit, k, r, c)
      ensures c in rep.lost || c in rep.before
    {
      if c in rep.floor.published || c > rep.floor.mark || Some(c) in calls {
        CallsSettle(w.log, rep.floor, calls, limit, g, c);
      }
    }
  }

  // ------------------------------------------------------------- a poison event

  /** A newest event that does not decode keeps the mark one below it: after any
      history, a calm pointer to it does not reach the newest id. */
  lemma PoisonHoldsTheMark(steps: seq<Step>, limit: nat, w: World, r: nat, n: int, trace: seq<Seen>, g: Floor)
    requires Leads(EMPTY, steps, limit, w) && r < |w.replicas| && w.replicas[r].floor.mark < n
    requires Row(n, false) in w.log && LastId(w.log, 0) == n
    requires CalmCall(w.log, w.replicas[r].floor, Some(n), trace, limit, g)
    ensures g.mark == n - 1
  {
    RunKeeps(EMPTY, steps, limit, w);
    assert ReplicaInv(w.log, w.replicas[r]);
    CalmRun(w.log, w.replicas[r].floor, Some(n), trace, limit, g);
    assert Row(n, true) !in w.log;
  }

  lemma LeadsOn(steps: seq<Step>, limit: nat, v: World, s: Step)
    requires Leads(EMPTY, steps, limit, v) && Enabled(v, s, limit)
    ensures Leads(EMPTY, steps + [s], limit, Next(v, s, limit))
  {
    assert (steps + [s])[..|steps|] == steps;
  }

  lemma InsertLast(log: seq<Row>, row: Row)
    requires Sorted(log) && row.id !in IdSet(log) && forall r :: r in log ==> r.id < row.id
    ensures Insert(log, row) == log + [row]
  {
    var k := FirstAbove(log, row.id);
    assert forall i :: 0 <= i < |log| ==> log[i] in log;
    assert log[..k] == log && log[k..] == [];
  }

  /** A commit of the newest id, seen from outside. */
  lemma CommitAppends(w: World, id: int, decodes: bool, limit: nat)
    requires Enabled(w, Commit(id, decodes, {}), limit) && forall r :: r in w.log ==> r.id < id
    ensures var v := Next(w, Commit(id, decodes, {}), limit);
      && v.next == w.next && v.open == w.open - {id} && v.log == w.log + [Row(id, decodes)]
      && |v.replicas| == |w.replicas| && forall i :: 0 <= i < |w.replicas| ==> v.replicas[i].floor == w.replicas[i].floor
  {
    InsertLast(w.log, Row(id, decodes));
  }

  lemma OneBegun(limit: nat) returns (steps: seq<Step>, w: World)
    ensures Leads(EMPTY, steps, limit, w) && w == World(2, {1}, [], [])
  {
    LeadsOn([], limit, EMPTY, Begin);
    steps, w := [] + [Begin], Next(EMPTY, Begin, limit);
  }

  lemma OneCommitted(limit: nat) returns (steps: seq<Step>, w: World)
    ensures Leads(EMPTY, steps, limit, w) && w == World(2, {}, [Row(1, true)], [])
  {
    steps, w := OneBegun(limit);
    var commit := Commit(1, true, {});
    LeadsOn(steps, limit, w, commit);
    CommitAppends(w, 1, true, limit);
    steps, w := steps + [commit], Next(w, commit, limit);
  }

  lemma OneListening(limit: nat) returns (steps: seq<Step>, w: World)
    ensures Leads(EMPTY, steps, limit, w) && w.next == 2 && w.open == {} && w.log == [Row(1, true)]
    ensures |w.replicas| == 1 && w.replicas[0].floor == NEW_FLOOR
  {
    steps, w := OneCommitted(limit);
    LeadsOn(steps, limit, w, Listen);
    steps, w := steps + [Listen], Next(w, Listen, limit);
  }

  lemma OneStarted(limit: nat) returns (steps: seq<Step>, w: World)
    ensures Leads(EMPTY, steps, limit, w) && w.next == 2 && w.open == {} && w.log == [Row(1, true)]
    ensures |w.replicas| == 1 && w.replicas[0].floor == Floor(1, Idle, [], 0, 0, 0, 0)
  {
    steps, w := OneListening(limit);
    LeadsOn(steps, limit, w, ReadHead(0));
    steps, w := steps + [ReadHead(0)], Next(w, ReadHead(0), limit);
  }

  lemma TwoBegun(limit: nat) returns (steps: seq<Step>, w: World)
    ensures Leads(EMPTY, steps, limit, w) && w.open == {2} && w.log == [Row(1, true)]
    ensures |w.replicas| == 1 && w.replicas[0].floor == Floor(1, Idle, [], 0, 0, 0, 0)
  {
    steps, w := OneStarted(limit);
    LeadsOn(steps, limit, w, Begin);
    steps, w := steps + [Begin], Next(w, Begin, limit);
  }

  lemma TwoCommitted(limit: nat) returns (steps: seq<Step>, w: World)
    ensures Leads(EMPTY, steps, limit, w) && w.log == [Row(1, true), Row(2, false)]
    ensures |w.replicas| == 1 && w.replicas[0].floor == Floor(1, Idle, [], 0, 0, 0, 0)
  {
    steps, w := TwoBegun(limit);
    var commit := Commit(2, false, {});
    LeadsOn(steps, limit, w, commit);
    CommitAppends(w, 2, false, limit);
    steps, w := steps + [commit], Next(w, commit, limit);
  }

  /** A run that gets there: one event, a replica that starts at it, and a second
      event that does not decode. */
  lemma PoisonReached(limit: nat) returns (steps: seq<Step>, w: World, trace: seq<Seen>, g: Floor)
    ensures Leads(EMPTY, steps, limit, w) && |w.replicas| == 1 && w.replicas[0].floor.mark == 1
    ensures w.log == [Row(1, true), Row(2, false)] && CalmCall(w.log, w.replicas[0].floor, Some(2), trace, limit, g)
  {
    steps, w := TwoCommitted(limit);
    trace, g := PoisonCall(w.log, w.replicas[0].floor, limit);
  }

  lemma PoisonCall(log: seq<Row>, f: Floor, limit: nat) returns (trace: seq<Seen>, g: Floor)
    requires log == [Row(1, true), Row(2, false)] && f.phase.Idle? && f.mark == 1
    ensures CalmCall(log, f, Some(2), trace, limit, g)
  {
    var s := Seen(log, Event(Unreadable));
    var m := StartPointer(f, 2);
    assert Runs(m, [], limit, m);
    RunsExtend(m, [], limit, m, s);
    trace, g := [s], Absorb(m, s, limit);
    assert [] + [s] == [s];
  }
}
