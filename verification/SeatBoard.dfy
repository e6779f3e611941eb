/**
 The board the seats claim from: threads queued, held under a lease or
 released, and writes fenced by the lease they name.
 */
module SeatBoards {
  import opened Basics
  import opened Idempotency

  type Thread = int

  type Lease = nat

  datatype Request =
    | ClaimNext
    | Acknowledge(thread: Thread, lease: Lease)
    | Renew(thread: Thread, lease: Lease)
    | SetResult(thread: Thread, lease: Lease)
    | Release(thread: Thread, lease: Lease)

  datatype Body = Null | Claim(thread: Thread, lease: Lease) | Done | ClaimLost | KeyReused

  /** What the board has recorded, in order. */
  datatype Event = Claimed(thread: Thread, lease: Lease) | Wrote(request: Request)

  datatype Board = Board(queue: seq<Thread>, leases: map<Thread, Lease>, nextLease: Lease, log: seq<Event>)

  /** Take the first queued thread under a new lease. */
  function ClaimFirst(b: Board): Routed<Board, Body> {
    if b.queue == [] then Routed(b, Answer(200, Null))
    else
      var t, l := b.queue[0], b.nextLease;
      Routed(Board(b.queue[1..], b.leases[t := l], l + 1, b.log + [Claimed(t, l)]), Answer(200, Claim(t, l)))
  }

  /** A fenced write: under the live lease or not at all. */
  function Fence(b: Board, q: Request): Routed<Board, Body>
    requires !q.ClaimNext?
  {
    if q.thread !in b.leases || b.leases[q.thread] != q.lease then Routed(b, Answer(409, ClaimLost))
    else
      var leases := if q.Release? then b.leases - {q.thread} else b.leases;
      Routed(b.(leases := leases, log := b.log + [Wrote(q)]), Answer(200, Done))
  }

  function Route(b: Board, q: Request): Routed<Board, Body> {
    if q.ClaimNext? then ClaimFirst(b) else Fence(b, q)
  }

  const APP: App<Board, Request, Body> := App(Route, (q: Request) => true, KeyReused)

  lemma BoardHonest()
    ensures Honest(APP) && Distinct(APP)
  {
  }

  // ------------------------------------------------------------- the invariant

  ghost predicate ClaimedIn(log: seq<Event>, t: Thread) {
    exists l :: Claimed(t, l) in log
  }

  ghost predicate ReleasedIn(log: seq<Event>, t: Thread) {
    exists l :: Wrote(Release(t, l)) in log
  }

  /** Where a thread is. */
  ghost predicate Queued(b: Board, t: Thread) {
    t in b.queue
  }

  ghost predicate Held(b: Board, t: Thread) {
    t in b.leases
  }

  /** Exactly one of the three. */
  ghost predicate Placed(b: Board, t: Thread) {
    || (Queued(b, t) && !Held(b, t) && !ReleasedIn(b.log, t))
    || (!Queued(b, t) && Held(b, t) && !ReleasedIn(b.log, t))
    || (!Queued(b, t) && !Held(b, t) && ReleasedIn(b.log, t))
  }

  /** A recorded write came after the claim that issued its lease and before
      any release of its thread. */
  ghost predicate Fenced(log: seq<Event>) {
    forall i :: 0 <= i < |log| && log[i].Wrote? ==>
      && !log[i].request.ClaimNext?
      && Claimed(log[i].request.thread, log[i].request.lease) in log[..i]
      && !ReleasedIn(log[..i], log[i].request.thread)
  }

  /** No thread and no lease is claimed twice. */
  ghost predicate ClaimedOnce(log: seq<Event>) {
    forall i, j :: 0 <= i < j < |log| && log[i].Claimed? && log[j].Claimed? ==>
      log[i].thread != log[j].thread && log[i].lease != log[j].lease
  }

  ghost predicate Leased(b: Board) {
    && (forall t :: t in b.leases ==> Claimed(t, b.leases[t]) in b.log)
    && (forall e :: e in b.log && e.Claimed? ==> e.lease < b.nextLease)
  }

  ghost predicate Unclaimed(b: Board) {
    NoDuplicates(b.queue) && forall t :: t in b.queue ==> !ClaimedIn(b.log, t)
  }

  ghost predicate BoardInv(threads: set<Thread>, b: Board) {
    && (forall t :: t in threads <==> Queued(b, t) || Held(b, t) || ReleasedIn(b.log, t))
    && (forall t :: t in threads ==> Placed(b, t))
    && (forall t :: ClaimedIn(b.log, t) ==> t in threads)
    && Fenced(b.log) && ClaimedOnce(b.log) && Leased(b) && Unclaimed(b)
  }

  function Opened(queue: seq<Thread>): Board {
    Board(queue, map[], 0, [])
  }

  lemma OpenedInv(queue: seq<Thread>)
    requires NoDuplicates(queue)
    ensures BoardInv((set t | t in queue), Opened(queue))
  {
  }

  // ------------------------------------------------------- what a request keeps

  /** One more event, seen through the log's predicates. */
  lemma LogGrows(log: seq<Event>, e: Event)
    ensures forall t :: ReleasedIn(log + [e], t) <==> ReleasedIn(log, t) || (e.Wrote? && e.request.Release? && e.request.thread == t)
    ensures forall t :: ClaimedIn(log + [e], t) <==> ClaimedIn(log, t) || (e.Claimed? && e.thread == t)
  {
    var more := log + [e];
    forall t ensures ReleasedIn(more, t) <==> ReleasedIn(log, t) || (e.Wrote? && e.request.Release? && e.request.thread == t) {
      if e.Wrote? && e.request.Release? && e.request.thread == t {
        assert e == Wrote(Release(t, e.request.lease)) && e in more;
      }
      if ReleasedIn(log, t) {
        var l :| Wrote(Release(t, l)) in log;
        assert Wrote(Release(t, l)) in more;
      }
    }
    forall t ensures ClaimedIn(more, t) <==> ClaimedIn(log, t) || (e.Claimed? && e.thread == t) {
      if e.Claimed? && e.thread == t {
        assert Claimed(t, e.lease) in more;
      }
      if ClaimedIn(log, t) {
        var l :| Claimed(t, l) in log;
        assert Claimed(t, l) in more;
      }
    }
  }

  lemma FencedGrows(log: seq<Event>, e: Event)
    requires Fenced(log)
    requires e.Wrote? ==> !e.request.ClaimNext? && Claimed(e.request.thread, e.request.lease) in log
                          && !ReleasedIn(log, e.request.thread)
    ensures Fenced(log + [e])
  {
    var more := log + [e];
    forall i | 0 <= i < |more| && more[i].Wrote?
      ensures && !more[i].request.ClaimNext?
              && Claimed(more[i].request.thread, more[i].request.lease) in more[..i]
              && !ReleasedIn(more[..i], more[i].request.thread)
    {
      assert more[..i] == log[..i];
      assert log[..|log|] == log;
    }
  }

  lemma ClaimPlaces(threads: set<Thread>, b: Board, t: Thread)
    requires BoardInv(threads, b) && b.queue != [] && t in threads
    ensures Placed(ClaimFirst(b).state, t)
  {
    var c := ClaimFirst(b).state;
    LogGrows(b.log, Claimed(b.queue[0], b.nextLease));
    QueueMoves(b.queue, t);
  }

  lemma QueueMoves(queue: seq<Thread>, t: Thread)
    requires NoDuplicates(queue) && queue != []
    ensures t in queue[1..] <==> t in queue && t != queue[0]
  {
    if t in queue && t != queue[0] {
      var i :| 0 <= i < |queue| && queue[i] == t;
      assert queue[1..][i - 1] == t;
    }
  }

  lemma ClaimKeepsClaims(threads: set<Thread>, b: Board)
    requires BoardInv(threads, b) && b.queue != []
    ensures var c := ClaimFirst(b).state; Fenced(c.log) && ClaimedOnce(c.log) && Leased(c) && Unclaimed(c)
  {
    var c := ClaimFirst(b).state;
    var e := Claimed(b.queue[0], b.nextLease);
    assert c.log == b.log + [e];
    LogGrows(b.log, e);
    FencedGrows(b.log, e);
    assert b.queue[0] in b.queue;
    forall i | 0 <= i < |b.log| && b.log[i].Claimed?
      ensures b.log[i].thread != e.thread && b.log[i].lease != e.lease
    {
      assert Claimed(b.log[i].thread, b.log[i].lease) in b.log;
    }
    forall t | t in c.queue ensures !ClaimedIn(c.log, t) {
      QueueMoves(b.queue, t);
    }
  }

  lemma ClaimKeeps(threads: set<Thread>, b: Board)
    requires BoardInv(threads, b)
    ensures BoardInv(threads, ClaimFirst(b).state)
  {
    if b.queue != [] {
      var c := ClaimFirst(b).state;
      ClaimKeepsClaims(threads, b);
      LogGrows(b.log, Claimed(b.queue[0], b.nextLease));
      forall t ensures t in threads <==> Queued(c, t) || Held(c, t) || ReleasedIn(c.log, t) {
        QueueMoves(b.queue, t);
      }
      forall t | t in threads ensures Placed(c, t) {
        ClaimPlaces(threads, b, t);
      }
    }
  }

  lemma WriteKeeps(threads: set<Thread>, b: Board, q: Request)
    requires BoardInv(threads, b) && !q.ClaimNext?
    ensures BoardInv(threads, Fence(b, q).state)
  {
    var c := Fence(b, q).state;
    if c != b {
      var e := Wrote(q);
      assert c.log == b.log + [e];
      LogGrows(b.log, e);
      assert Placed(b, q.thread);
      FencedGrows(b.log, e);
      WritePlaces(threads, b, q);
    }
  }

  lemma WritePlaces(threads: set<Thread>, b: Board, q: Request)
    requires BoardInv(threads, b) && !q.ClaimNext?
    ensures var c := Fence(b, q).state;
      && (forall t :: t in threads <==> Queued(c, t) || Held(c, t) || ReleasedIn(c.log, t))
      && (forall t :: t in threads ==> Placed(c, t))
  {
    var c := Fence(b, q).state;
    if c != b {
      LogGrows(b.log, Wrote(q));
      assert Placed(b, q.thread);
      forall t | t in threads ensures Placed(c, t) {
        assert Placed(b, t);
      }
    }
  }

  /** Every request keeps the board in order. */
  lemma RouteKeeps(threads: set<Thread>, b: Board, q: Request)
    requires BoardInv(threads, b)
    ensures BoardInv(threads, Route(b, q).state)
  {
    if q.ClaimNext? {
      ClaimKeeps(threads, b);
    } else {
      WriteKeeps(threads, b, q);
    }
  }

  /** A fenced write is recorded exactly when, by the record, its lease was issued
      for its thread and the thread has not been released since; otherwise it is
      refused and nothing changes. */
  lemma FencedExactly(threads: set<Thread>, b: Board, q: Request)
    requires BoardInv(threads, b) && !q.ClaimNext?
    ensures var r := Route(b, q);
      if Claimed(q.thread, q.lease) in b.log && !ReleasedIn(b.log, q.thread)
      then r.answer == Answer(200, Done) && r.state.log == b.log + [Wrote(q)]
      else r == Routed(b, Answer(409, ClaimLost))
  {
    var t, l := q.thread, q.lease;
    if t in b.leases {
      assert Claimed(t, b.leases[t]) in b.log && ClaimedIn(b.log, t) && Placed(b, t);
      if Claimed(t, l) in b.log {
        var x :| 0 <= x < |b.log| && b.log[x] == Claimed(t, l);
        var y :| 0 <= y < |b.log| && b.log[y] == Claimed(t, b.leases[t]);
        assert x == y;
      }
    } else if Claimed(t, l) in b.log {
      assert ClaimedIn(b.log, t) && Placed(b, t);
    }
  }

  /** A claim takes the first queued thread under a lease never issued before; when
      there is none, the answer says so and nothing changes. */
  lemma ClaimedExactly(threads: set<Thread>, b: Board)
    requires BoardInv(threads, b)
    ensures var r := Route(b, ClaimNext);
      if b.queue == [] then r == Routed(b, Answer(200, Null))
      else
        && r.answer == Answer(200, Claim(b.queue[0], b.nextLease))
        && r.state.log == b.log + [Claimed(b.queue[0], b.nextLease)] && r.state.queue == b.queue[1..]
        && !ClaimedIn(b.log, b.queue[0]) && forall t :: Claimed(t, b.nextLease) !in b.log
  {
    if b.queue != [] {
      assert b.queue[0] in b.queue;
      assert forall e :: e in b.log && e.Claimed? ==> e.lease < b.nextLease;
    }
  }

  /** The threads claimed, in the order they were. */
  function ClaimsOf(log: seq<Event>): seq<Thread> {
    if log == [] then []
    else
      var last := log[|log| - 1];
      ClaimsOf(log[..|log| - 1]) + if last.Claimed? then [last.thread] else []
  }

  /** Threads are claimed first come, first served: what was claimed, and then what
      is queued, stays the same list. */
  lemma RouteKeepsOrder(b: Board, q: Request)
    ensures var c := Route(b, q).state; ClaimsOf(c.log) + c.queue == ClaimsOf(b.log) + b.queue
  {
    var c := Route(b, q).state;
    if c.log != b.log {
      assert c.log[..|b.log|] == b.log;
      if q.ClaimNext? {
        assert [b.queue[0]] + b.queue[1..] == b.queue;
        Appended(ClaimsOf(b.log), [b.queue[0]], b.queue[1..]);
      } else {
        Appended(ClaimsOf(b.log), [], []);
      }
    }
  }

  // -------------------------------------------------------------- the board, live

  /** The server as its fault-injection double has it: fields changed in place,
      one request at a time. Its lists of claims, acknowledgements, renewals,
      releases and results are one record here, in the order they were made. */
  class FakeMaidan<K(==)> {
    var queue: seq<Thread>
    var leases: map<Thread, Lease>
    var nextLease: Lease
    var log: seq<Event>
    var keys: map<K, Kept<Request, Body>>
    var replays: nat
    ghost var effects: seq<Effect<K, Request, Body>>

    ghost function Now(): Board
      reads this
    {
      Board(queue, leases, nextLease, log)
    }

    ghost function View(): Server<Board, K, Request, Body>
      reads this
    {
      Server(Now(), keys, effects)
    }

    constructor (threads: seq<Thread>)
      ensures View() == Empty(Opened(threads)) && replays == 0
    {
      queue, leases, nextLease, log := threads, map[], 0, [];
      keys, replays, effects := map[], 0, [];
    }

    method TakeClaim() returns (body: Body)
      modifies this`queue, this`leases, this`nextLease, this`log
      ensures Now() == ClaimFirst(old(Now())).state && Answer(200, body) == ClaimFirst(old(Now())).answer
    {
      if queue == [] {
        return Null;
      }
      var thread, lease := queue[0], nextLease;
      queue, nextLease := queue[1..], lease + 1;
      leases := leases[thread := lease];
      log := log + [Claimed(thread, lease)];
      body := Claim(thread, lease);
    }

    /** Check the lease, then record the write. */
    method Write(q: Request) returns (answer: Answer<Body>)
      requires !q.ClaimNext?
      modifies this`leases, this`log
      ensures Now() == Fence(old(Now()), q).state && answer == Fence(old(Now()), q).answer
    {
      if q.thread !in leases || leases[q.thread] != q.lease {
        return Answer(409, ClaimLost);
      }
      log := log + [Wrote(q)];
      if q.Release? {
        leases := leases - {q.thread};
      }
      answer := Answer(200, Done);
    }

    method RouteTo(q: Request) returns (answer: Answer<Body>)
      modifies this`queue, this`leases, this`nextLease, this`log
      ensures Now() == Route(old(Now()), q).state && answer == Route(old(Now()), q).answer
    {
      if q.ClaimNext? {
        var body := TakeClaim();
        answer := Answer(200, body);
      } else {
        answer := Write(q);
      }
    }

    /** Answer one request under its key: what `Serve` says of the board, in
        place. */
    method Answers(q: Request, key: Option<K>) returns (answer: Answer<Body>)
      modifies this
      ensures var served := Serve(APP, old(View()), q, key); View() == served.server && answer == served.answer
      ensures replays == old(replays)
        + if key.Some? && key.value in old(keys) && old(keys)[key.value].request == q then 1 else 0
    {
      if key.Some? && key.value in keys {
        var kept := keys[key.value];
        if kept.request != q {
          return Answer(422, KeyReused);
        }
        replays := replays + 1;
        return kept.answer;
      }
      answer := RouteTo(q);
      if !Frees(answer.status) {
        effects := effects + [Effect(key, q, answer)];
        if key.Some? {
          keys := keys[key.value := Kept(q, answer)];
        }
      }
    }
  }
}
