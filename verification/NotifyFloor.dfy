/**
 The self-healing floor under the notification listener: a high-water mark, a
 paged back-fill of the ids a pointer jumped over, and the hydration of the
 pointer's own event.

 `Floor` with `StartPointer`, `StartReconnect`, `OnPage` and `OnGet` is the
 floor cut at its reads: between two of these functions anything may commit and
 other replicas may run. `NotifyFloor` is the object that runs those cuts one
 after another, and its methods are proved to do exactly that.
 */
module NotifyFloors {
  import opened Basics
  import opened EventLogs

  const BACKFILL_BATCH: nat := 256

  // ---------------------------------------------------------------- one page

  datatype DrainStatus = More | Stopped | Complete

  /** What a drain has done so far: the last id passed, what it published. */
  datatype DrainState = DrainState(cursor: int, published: seq<int>, skipped: nat, status: DrainStatus)

  predicate Reaches(to: Option<int>, id: int) {
    to.Some? && id >= to.value
  }

  /** The rows of a page that come before the drain's upper bound. */
  function Before(page: seq<Row>, to: Option<int>): (rows: seq<Row>)
    ensures rows <= page
    ensures forall r :: r in rows ==> !Reaches(to, r.id)
    ensures |rows| < |page| ==> Reaches(to, page[|rows|].id)
  {
    if page == [] || Reaches(to, page[0].id) then [] else [page[0]] + Before(page[1..], to)
  }

  function Decoded(rows: seq<Row>): (ids: seq<int>)
    ensures |ids| <= |rows|
  {
    if rows == [] then []
    else
      var last := rows[|rows| - 1];
      Decoded(rows[..|rows| - 1]) + if last.decodes then [last.id] else []
  }

  lemma {:induction false} DecodedHolds(rows: seq<Row>)
    ensures forall i :: i in Decoded(rows) <==> Row(i, true) in rows
  {
    if rows != [] {
      var last := rows[|rows| - 1];
      assert rows == rows[..|rows| - 1] + [last];
      DecodedHolds(rows[..|rows| - 1]);
    }
  }

  lemma {:induction false} DecodedConcat(a: seq<Row>, b: seq<Row>)
    ensures Decoded(a + b) == Decoded(a) + Decoded(b)
  {
    if b == [] {
      assert a + b == a;
    } else {
      var k := |b| - 1;
      assert (a + b)[..|a| + k] == a + b[..k];
      DecodedConcat(a, b[..k]);
    }
  }

  /** One read of a drain, and what it does with the answer. */
  function DrainPage(cursor: int, to: Option<int>, reply: PageReply, limit: nat): DrainState {
    match reply
    case PageFailed => DrainState(cursor, [], 0, Stopped)
    case PageRows(page) =>
      var rows := Before(page, to);
      DrainState(LastId(rows, cursor), Decoded(rows), |rows| - |Decoded(rows)|,
                 if |rows| < |page| || |page| < limit then Complete else More)
  }

  // ------------------------------------------------------- the floor, by cuts

  /** Between which reads the floor is. */
  datatype Phase =
    | Starting
    | Idle
    | Draining(cursor: int, to: Option<int>)
    | Hydrating(id: int, covered: int)

  datatype Floor = Floor(
    mark: int, phase: Phase, published: seq<int>,
    ok: nat, notFound: nat, failed: nat, backfilled: nat)

  /** The mark is seeded from the head of the log. */
  function StartAt(f: Floor, head: int): Floor
    requires f.phase.Starting?
  {
    f.(mark := head, phase := Idle)
  }

  function StartPointer(f: Floor, id: int): Floor
    requires f.phase.Idle?
  {
    f.(phase := if id > f.mark + 1 then Draining(f.mark, Some(id)) else Hydrating(id, f.mark))
  }

  function StartReconnect(f: Floor): Floor
    requires f.phase.Idle?
  {
    f.(phase := Draining(f.mark, None))
  }

  /** A drain is over: a pointer goes on to its own event, a reconnect takes
      what the drain reached as its mark. */
  function AfterDrain(f: Floor, to: Option<int>, reached: int, complete: bool): Floor {
    match to
    case Some(id) => f.(phase := Hydrating(id, if complete then id - 1 else reached))
    case None => f.(mark := reached, phase := Idle)
  }

  function Credit(f: Floor, d: DrainState): Floor {
    f.(published := f.published + d.published, backfilled := f.backfilled + |d.published|, failed := f.failed + d.skipped)
  }

  /** Take over what a page did, and go on where it leaves off. */
  function TakePage(f: Floor, d: DrainState): Floor
    requires f.phase.Draining?
  {
    if d.status == More then Credit(f, d).(phase := Draining(d.cursor, f.phase.to))
    else AfterDrain(Credit(f, d), f.phase.to, d.cursor, d.status == Complete)
  }

  function OnPage(f: Floor, reply: PageReply, limit: nat): Floor
    requires f.phase.Draining?
  {
    TakePage(f, DrainPage(f.phase.cursor, f.phase.to, reply, limit))
  }

  function OnGet(f: Floor, reply: GetReply): Floor
    requires f.phase.Hydrating?
  {
    var Hydrating(id, covered) := f.phase;
    var reached := if reply.Got? && covered >= id - 1 then Max(covered, id) else covered;
    var g := f.(mark := Max(f.mark, reached), phase := Idle);
    match reply
    case Got => g.(ok := f.ok + 1, published := f.published + [id])
    case NotFound => g.(notFound := f.notFound + 1)
    case Unreadable => g.(failed := f.failed + 1)
  }

  /** Up to where the floor has looked: everything committed at or below this
      was delivered, or committed after the floor had passed it. */
  function Position(f: Floor): int {
    match f.phase
    case Starting => 0
    case Idle => f.mark
    case Draining(cursor, _) => cursor
    case Hydrating(_, covered) => covered
  }

  /** An answer to the read the floor is waiting on, with the log it met. */
  datatype Seen = Seen(rows: seq<Row>, answer: Answer)
  datatype Answer = Page(page: PageReply) | Event(event: GetReply)

  ghost predicate Answers(f: Floor, s: Seen, limit: nat) {
    match s.answer
    case Page(reply) =>
      f.phase.Draining? && (reply.PageRows? ==> IsPage(s.rows, f.phase.cursor, limit, reply.rows))
    case Event(reply) =>
      f.phase.Hydrating? && (reply.Got? ==> Row(f.phase.id, true) in s.rows)
  }

  ghost function Absorb(f: Floor, s: Seen, limit: nat): Floor
    requires Answers(f, s, limit)
  {
    match s.answer
    case Page(reply) => OnPage(f, reply, limit)
    case Event(reply) => OnGet(f, reply)
  }

  /** `g` is what the floor becomes from `f` by absorbing these answers. */
  ghost predicate Runs(f: Floor, trace: seq<Seen>, limit: nat, g: Floor)
    decreases |trace|
  {
    if trace == [] then f == g
    else
      var k := |trace| - 1;
      exists m :: Runs(f, trace[..k], limit, m) && Answers(m, trace[k], limit) && g == Absorb(m, trace[k], limit)
  }

  lemma RunsExtend(f: Floor, trace: seq<Seen>, limit: nat, m: Floor, s: Seen)
    requires Runs(f, trace, limit, m) && Answers(m, s, limit)
    ensures Runs(f, trace + [s], limit, Absorb(m, s, limit))
  {
    assert (trace + [s])[..|trace|] == trace;
  }
}
