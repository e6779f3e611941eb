/**
 Seats that claim threads from the board and run them, over a network that
 loses, delays and repeats requests and loses answers. A post stays on the
 network for good: it may arrive at any time, any number of times or never.
 The key of a post is its place among all posts ever made.
 */
module SeatRuns {
  import opened Basics
  import opened Idempotency
  import opened SeatBoards
  import RetryingSend

  type Key = nat

  type Hub = Server<Board, Key, Request, Body>

  /** A request put on the network, and the run of a seat it belongs to, if
      any; a run is named by the key of its claim. The rest of the world, the
      processes the seats start included, posts what it likes. */
  datatype Post = Post(request: Request, keyed: bool, run: Option<Key>)

  /** A claim a run has learned of. */
  datatype Grip = Grip(run: Key, thread: Thread, lease: Lease)

  datatype Phase =
    | Idle
    | Claiming(key: Key)
    | Acking(grip: Grip, key: Key)
    | Running(grip: Grip)
    | Releasing(grip: Grip, key: Key, ran: bool)

  datatype Seat = Seat(phase: Phase, tries: nat)

  datatype Heard = Heard(key: Key, answer: Answer<Body>)

  datatype World = World(hub: Hub, seats: seq<Seat>, posts: seq<Post>, heard: seq<Heard>)

  datatype Config = Config(claimAttempts: nat, releaseAttempts: nat)

  // --------------------------------------------------------------------- steps

  /** What a seat makes of an attempt: no answer, an answer from something on
      the way, or the board's. */
  datatype Outcome = Unreachable | Elsewhere(status: int) | FromBoard(answer: Answer<Body>)

  const RETRY_STATUSES := {408, 429, 500, 502, 503, 504}

  predicate WorthRetrying(o: Outcome) {
    match o
    case Unreachable => true
    case Elsewhere(status) => status in RETRY_STATUSES
    case FromBoard(answer) => answer.status in RETRY_STATUSES
  }

  /** The runner retries the statuses that the client does. */
  lemma SameRetries(how: RetryingSend.Reading<Body>, answer: Answer<Body>)
    requires !how.inFlight(answer.body)
    ensures WorthRetrying(FromBoard(answer)) <==> RetryingSend.Retryable(how, answer)
    ensures WorthRetrying(Elsewhere(answer.status)) <==> RetryingSend.Retryable(how, answer)
  {
  }

  /** What can come back under a key. */
  predicate Comes(w: World, key: Key, o: Outcome) {
    match o
    case Unreachable => true
    case Elsewhere(status) => status in RETRY_STATUSES
    case FromBoard(answer) => Heard(key, answer) in w.heard
  }

  predicate Writing(p: Phase) {
    p.Claiming? || p.Acking? || p.Releasing?
  }

  function Attempts(cfg: Config, p: Phase): nat {
    Max(1, if p.Releasing? then cfg.releaseAttempts else cfg.claimAttempts)
  }

  datatype Step =
    | Begin(seat: nat)
    | Retry(seat: nat, outcome: Outcome)
    | Conclude(seat: nat, outcome: Outcome, stopping: bool)
    | Renewal(seat: nat)
    | Finish(seat: nat)
    | Aside(request: Request, keyed: bool)
    | Arrive(post: nat)

  predicate Enabled(cfg: Config, w: World, s: Step) {
    match s
    case Begin(i) => i < |w.seats| && w.seats[i].phase.Idle?
    case Retry(i, o) =>
      && i < |w.seats| && Writing(w.seats[i].phase) && Comes(w, w.seats[i].phase.key, o)
      && WorthRetrying(o) && w.seats[i].tries < Attempts(cfg, w.seats[i].phase)
    // A write ends on an answer not worth retrying, on its last try, or because
    // the wait for the next one raised.
    case Conclude(i, o, _) => i < |w.seats| && Writing(w.seats[i].phase) && Comes(w, w.seats[i].phase.key, o)
    case Renewal(i) => i < |w.seats| && w.seats[i].phase.Running?
    case Finish(i) => i < |w.seats| && w.seats[i].phase.Running?
    case Aside(_, _) => true
    case Arrive(k) => k < |w.posts|
  }

  function Mail(w: World, p: Post): World {
    w.(posts := w.posts + [p])
  }

  function Sit(w: World, i: nat, phase: Phase): World
    requires i < |w.seats|
  {
    w.(seats := w.seats[i := w.seats[i].(phase := phase, tries := 1)])
  }

  /** Begin a write of run `g.run` and wait on its key. */
  function StartAck(w: World, i: nat, g: Grip): World
    requires i < |w.seats|
  {
    Sit(Mail(w, Post(Acknowledge(g.thread, g.lease), true, Some(g.run))), i, Acking(g, |w.posts|))
  }

  function StartRelease(w: World, i: nat, g: Grip, ran: bool): World
    requires i < |w.seats|
  {
    Sit(Mail(w, Post(Release(g.thread, g.lease), true, Some(g.run))), i, Releasing(g, |w.posts|, ran))
  }

  function Concluded(w: World, i: nat, o: Outcome, stopping: bool): World
    requires i < |w.seats|
  {
    match w.seats[i].phase
    case Claiming(key) =>
      if o.FromBoard? && o.answer.status == 200 && o.answer.body.Claim?
      then StartAck(w, i, Grip(key, o.answer.body.thread, o.answer.body.lease))
      else Sit(w, i, Idle)
    case Acking(g, _) =>
      if o.FromBoard? && 200 <= o.answer.status < 300 && !stopping then Sit(w, i, Running(g))
      else StartRelease(w, i, g, false)
    case Releasing(_, _, _) => Sit(w, i, Idle)
    case _ => w
  }

  function Arrived(w: World, k: nat): World
    requires k < |w.posts|
  {
    var p := w.posts[k];
    var served := Serve(APP, w.hub, p.request, if p.keyed then Some(k) else None);
    w.(hub := served.server, heard := if p.keyed then w.heard + [Heard(k, served.answer)] else w.heard)
  }

  function Next(w: World, cfg: Config, s: Step): World
    requires Enabled(cfg, w, s)
  {
    match s
    case Begin(i) => Sit(Mail(w, Post(ClaimNext, true, Some(|w.posts|))), i, Claiming(|w.posts|))
    case Retry(i, _) => w.(seats := w.seats[i := w.seats[i].(tries := w.seats[i].tries + 1)])
    case Conclude(i, o, stopping) => Concluded(w, i, o, stopping)
    case Renewal(i) =>
      var g := w.seats[i].phase.grip;
      Mail(w, Post(Renew(g.thread, g.lease), true, Some(g.run)))
    case Finish(i) => StartRelease(w, i, w.seats[i].phase.grip, true)
    case Aside(request, keyed) => Mail(w, Post(request, keyed, None))
    case Arrive(k) => Arrived(w, k)
  }

  // ------------------------------------------------------------- the invariant

  ghost predicate KeysPosted(w: World) {
    forall k :: k in w.hub.keys ==>
      k < |w.posts| && w.posts[k].keyed && w.hub.keys[k].request == w.posts[k].request
  }

  /** An answer heard that does not free its key is the answer of its effect. */
  ghost predicate HeardTrue(w: World) {
    forall h :: h in w.heard ==>
      && h.key < |w.posts|
      && (!Frees(h.answer.status) ==> Effect(Some(h.key), w.posts[h.key].request, h.answer) in w.hub.effects)
  }

  predicate Claims(e: Effect<Key, Request, Body>) {
    e.answer.body.Claim?
  }

  /** The effects are on the board's record, and no two of them claimed the
      same thread. */
  ghost predicate Recorded(hub: Hub) {
    && (forall e :: e in hub.effects && Claims(e) ==>
          e.request.ClaimNext? && Claimed(e.answer.body.thread, e.answer.body.lease) in hub.state.log)
    && (forall i, j :: 0 <= i < j < |hub.effects| && Claims(hub.effects[i]) && Claims(hub.effects[j]) ==>
          hub.effects[i].answer.body.thread != hub.effects[j].answer.body.thread)
    && (forall e :: e in hub.effects && !e.request.ClaimNext? ==> Wrote(e.request) in hub.state.log)
  }

  ghost predicate HubInv(queue: seq<Thread>, hub: Hub) {
    && Sound(APP, Opened(queue), hub)
    && BoardInv((set t | t in queue), hub.state)
    && ClaimsOf(hub.state.log) + hub.state.queue == queue
    && Recorded(hub)
  }

  /** The claim was taken by the run that knows of it. */
  ghost predicate Gripped(hub: Hub, g: Grip) {
    Effect(Some(g.run), ClaimNext, Answer(200, Claim(g.thread, g.lease))) in hub.effects
  }

  ghost predicate Acked(hub: Hub, g: Grip) {
    Wrote(Acknowledge(g.thread, g.lease)) in hub.state.log
  }

  /** The run has not posted a release. */
  ghost predicate Unreleased(posts: seq<Post>, run: Key) {
    forall k :: 0 <= k < |posts| && posts[k].run == Some(run) ==> !posts[k].request.Release?
  }

  ghost predicate PostedBy(posts: seq<Post>, k: Key, request: Request, run: Key) {
    k < |posts| && posts[k] == Post(request, true, Some(run))
  }

  ghost predicate PhaseInv(hub: Hub, posts: seq<Post>, p: Phase) {
    match p
    case Idle => true
    case Claiming(key) => PostedBy(posts, key, ClaimNext, key) && Unreleased(posts, key)
    case Acking(g, key) =>
      Gripped(hub, g) && PostedBy(posts, key, Acknowledge(g.thread, g.lease), g.run) && Unreleased(posts, g.run)
    case Running(g) => Gripped(hub, g) && Acked(hub, g) && Unreleased(posts, g.run)
    case Releasing(g, key, ran) =>
      && Gripped(hub, g) && (ran ==> Acked(hub, g))
      && PostedBy(posts, key, Release(g.thread, g.lease), g.run)
  }

  function RunOf(p: Phase): Option<Key> {
    match p
    case Idle => None
    case Claiming(key) => Some(key)
    case Acking(g, _) => Some(g.run)
    case Running(g) => Some(g.run)
    case Releasing(g, _, _) => Some(g.run)
  }

  /** A run is some seat's own, and was posted. */
  ghost predicate RunsApart(w: World) {
    && (forall i :: 0 <= i < |w.seats| && RunOf(w.seats[i].phase).Some? ==> RunOf(w.seats[i].phase).value < |w.posts|)
    && (forall i, j :: 0 <= i < j < |w.seats| && RunOf(w.seats[i].phase).Some? ==>
          RunOf(w.seats[i].phase) != RunOf(w.seats[j].phase))
  }

  /** What a run posts carries a key, comes after the run's claim, and is not
      another claim. */
  predicate RunPost(p: Post, k: Key) {
    p.run.Some? ==> p.keyed && p.run.value <= k && (p.request.ClaimNext? ==> p.run.value == k)
  }

  /** What holds of the seats and the network. */
  ghost predicate NetInv(w: World) {
    && KeysPosted(w) && HeardTrue(w) && RunsApart(w)
    && (forall k :: 0 <= k < |w.posts| ==> RunPost(w.posts[k], k))
    && forall s :: s in w.seats ==> PhaseInv(w.hub, w.posts, s.phase)
  }

  ghost predicate Inv(queue: seq<Thread>, w: World) {
    HubInv(queue, w.hub) && NetInv(w)
  }

  function Start(queue: seq<Thread>, seats: nat): World {
    World(Empty(Opened(queue)), seq(seats, _ => Seat(Idle, 0)), [], [])
  }

  lemma StartInv(queue: seq<Thread>, seats: nat)
    requires NoDuplicates(queue)
    ensures Inv(queue, Start(queue, seats))
  {
    OpenedInv(queue);
    Appended(queue, [], []);
  }

  // ------------------------------------------------------- what an arrival keeps

  lemma RouteRecords(hub: Hub, q: Request, held: Option<Key>)
    requires Recorded(hub) && Unclaimed(hub.state) && !Frees(Route(hub.state, q).answer.status)
    ensures Recorded(hub.(state := Route(hub.state, q).state,
                          effects := hub.effects + [Effect(held, q, Route(hub.state, q).answer)]))
  {
    var board := Route(hub.state, q).state;
    assert hub.state.log <= board.log;
    forall i | 0 <= i < |hub.effects| && Claims(hub.effects[i]) && q.ClaimNext? && hub.state.queue != []
      ensures hub.effects[i].answer.body.thread != hub.state.queue[0]
    {
      assert hub.effects[i] in hub.effects;
      assert hub.state.queue[0] in hub.state.queue;
    }
    assert board.log != hub.state.log ==> board.log[|hub.state.log|] in board.log;
  }

  /** Serving leaves the board alone or routes the request to it. */
  lemma ServeRoutes(hub: Hub, q: Request, key: Option<Key>)
    ensures var served := Serve(APP, hub, q, key).server; var run := Route(hub.state, q);
      || (served.state == hub.state && served.effects == hub.effects)
      || (served.state == run.state && !Frees(run.answer.status) && served.effects == hub.effects + [Effect(key, q, run.answer)])
  {
  }

  lemma BoardServes(threads: set<Thread>, hub: Hub, q: Request, key: Option<Key>)
    requires BoardInv(threads, hub.state)
    ensures var served := Serve(APP, hub, q, key).server;
      && BoardInv(threads, served.state) && hub.effects <= served.effects && hub.state.log <= served.state.log
      && ClaimsOf(served.state.log) + served.state.queue == ClaimsOf(hub.state.log) + hub.state.queue
  {
    ServeRoutes(hub, q, key);
    RouteKeeps(threads, hub.state, q);
    RouteKeepsOrder(hub.state, q);
  }

  lemma RecordServes(hub: Hub, q: Request, key: Option<Key>)
    requires Recorded(hub) && Unclaimed(hub.state)
    ensures Recorded(Serve(APP, hub, q, key).server)
  {
    ServeRoutes(hub, q, key);
    if Serve(APP, hub, q, key).server.effects != hub.effects {
      RouteRecords(hub, q, key);
    }
  }

  lemma HubServes(queue: seq<Thread>, hub: Hub, q: Request, key: Option<Key>)
    requires HubInv(queue, hub)
    ensures var served := Serve(APP, hub, q, key).server;
      HubInv(queue, served) && hub.effects <= served.effects && hub.state.log <= served.state.log
  {
    BoardHonest();
    ServeKeepsLedger(APP, hub, q, key);
    ServeExplained(APP, Opened(queue), hub, q, key);
    BoardServes((set t | t in queue), hub, q, key);
    RecordServes(hub, q, key);
  }

  // ----------------------------------------------------------- what time keeps

  /** Later: more effects, more on the record, more posts. */
  ghost predicate Later(hub: Hub, posts: seq<Post>, hub2: Hub, posts2: seq<Post>) {
    && hub.effects <= hub2.effects && hub.state.log <= hub2.state.log && posts <= posts2
    && |posts2| <= |posts| + 1
  }

  lemma PhaseStays(hub: Hub, posts: seq<Post>, hub2: Hub, posts2: seq<Post>, p: Phase)
    requires PhaseInv(hub, posts, p) && Later(hub, posts, hub2, posts2)
    requires |posts2| > |posts| && posts2[|posts|].request.Release? ==> RunOf(p).None? || RunOf(p) != posts2[|posts|].run
    ensures PhaseInv(hub2, posts2, p)
  {
  }

  // ------------------------------------------------------------ the steps, kept

  /** The keys of the hub stay those of the posts. */
  lemma ServePosted(w: World, k: nat)
    requires KeysPosted(w) && k < |w.posts|
    ensures KeysPosted(Arrived(w, k))
  {
  }

  lemma ServeHeard(w: World, k: nat)
    requires KeysPosted(w) && HeardTrue(w) && k < |w.posts| && Ledger(w.hub)
    requires w.hub.effects <= Arrived(w, k).hub.effects
    ensures HeardTrue(Arrived(w, k))
  {
    if w.posts[k].keyed {
      ServeSettles(APP, w.hub, w.posts[k].request, k);
    }
  }

  lemma ArriveKeepsNet(w: World, k: nat)
    requires NetInv(w) && k < |w.posts| && Ledger(w.hub)
    requires w.hub.effects <= Arrived(w, k).hub.effects && w.hub.state.log <= Arrived(w, k).hub.state.log
    ensures NetInv(Arrived(w, k))
  {
    var next := Arrived(w, k);
    ServePosted(w, k);
    ServeHeard(w, k);
    forall s | s in next.seats ensures PhaseInv(next.hub, next.posts, s.phase) {
      PhaseStays(w.hub, w.posts, next.hub, next.posts, s.phase);
    }
  }

  /** A post that is no run's release disturbs no seat. */
  lemma MailKeeps(w: World, p: Post)
    requires NetInv(w) && RunPost(p, |w.posts|) && (p.run.Some? ==> !p.request.Release?)
    ensures NetInv(Mail(w, p))
  {
    var next := Mail(w, p);
    forall s | s in next.seats ensures PhaseInv(next.hub, next.posts, s.phase) {
      assert s in w.seats;
      PhaseStays(w.hub, w.posts, next.hub, next.posts, s.phase);
    }
  }

  /** Seat `i` moves on within its run, or to none. */
  lemma SitKeeps(w: World, i: nat, seat: Seat)
    requires NetInv(w) && i < |w.seats| && PhaseInv(w.hub, w.posts, seat.phase)
    requires RunOf(seat.phase).None? || RunOf(seat.phase) == RunOf(w.seats[i].phase)
    ensures NetInv(w.(seats := w.seats[i := seat]))
  {
    var seats := w.seats[i := seat];
    forall s | s in seats ensures PhaseInv(w.hub, w.posts, s.phase) {
      var j :| 0 <= j < |seats| && seats[j] == s;
      assert j != i ==> w.seats[j] in w.seats;
    }
  }

  /** Seat `i` posts `p` under its own run and moves on. */
  lemma PostKeeps(w: World, i: nat, p: Post, seat: Seat)
    requires NetInv(w) && i < |w.seats| && PhaseInv(w.hub, w.posts + [p], seat.phase)
    requires RunOf(seat.phase).Some? && p.run == RunOf(seat.phase) && RunPost(p, |w.posts|)
    requires p.run == RunOf(w.seats[i].phase) || (p.run == Some(|w.posts|) && !p.request.Release?)
    ensures NetInv(Mail(w, p).(seats := w.seats[i := seat]))
  {
    var next := Mail(w, p).(seats := w.seats[i := seat]);
    forall s | s in next.seats ensures PhaseInv(next.hub, next.posts, s.phase) {
      var j :| 0 <= j < |next.seats| && next.seats[j] == s;
      if j != i {
        assert w.seats[j] in w.seats;
        assert p.request.Release? ==> RunOf(w.seats[j].phase).None? || RunOf(w.seats[j].phase) != RunOf(w.seats[i].phase);
        PhaseStays(w.hub, w.posts, next.hub, next.posts, s.phase);
      }
    }
  }

  lemma BeginKeeps(w: World, i: nat)
    requires NetInv(w) && i < |w.seats| && w.seats[i].phase.Idle?
    ensures NetInv(Sit(Mail(w, Post(ClaimNext, true, Some(|w.posts|))), i, Claiming(|w.posts|)))
  {
    var p := Post(ClaimNext, true, Some(|w.posts|));
    assert w.seats[i] in w.seats;
    PostKeeps(w, i, p, w.seats[i].(phase := Claiming(|w.posts|), tries := 1));
  }

  lemma StartAckKeeps(w: World, i: nat, g: Grip)
    requires NetInv(w) && i < |w.seats| && Gripped(w.hub, g)
    requires Unreleased(w.posts, g.run) && RunOf(w.seats[i].phase) == Some(g.run)
    ensures NetInv(StartAck(w, i, g))
  {
    var p := Post(Acknowledge(g.thread, g.lease), true, Some(g.run));
    assert w.seats[i] in w.seats;
    PostKeeps(w, i, p, w.seats[i].(phase := Acking(g, |w.posts|), tries := 1));
  }

  lemma StartReleaseKeeps(w: World, i: nat, g: Grip, ran: bool)
    requires NetInv(w) && i < |w.seats| && Gripped(w.hub, g) && (ran ==> Acked(w.hub, g))
    requires RunOf(w.seats[i].phase) == Some(g.run)
    ensures NetInv(StartRelease(w, i, g, ran))
  {
    var p := Post(Release(g.thread, g.lease), true, Some(g.run));
    assert w.seats[i] in w.seats;
    PostKeeps(w, i, p, w.seats[i].(phase := Releasing(g, |w.posts|, ran), tries := 1));
  }

  /** What an answer from the board proves. */
  lemma AnswerProves(w: World, key: Key, request: Request, run: Key, answer: Answer<Body>)
    requires HeardTrue(w) && Recorded(w.hub) && PostedBy(w.posts, key, request, run) && Heard(key, answer) in w.heard
    requires 200 <= answer.status < 300
    ensures Effect(Some(key), request, answer) in w.hub.effects
    ensures !request.ClaimNext? ==> Wrote(request) in w.hub.state.log
  {
  }

  lemma ConcludeKeeps(cfg: Config, w: World, i: nat, o: Outcome, stopping: bool)
    requires NetInv(w) && Recorded(w.hub) && Enabled(cfg, w, Conclude(i, o, stopping))
    ensures NetInv(Concluded(w, i, o, stopping))
  {
    var seat := w.seats[i];
    assert seat in w.seats;
    match seat.phase
    case Claiming(key) => {
      if o.FromBoard? && o.answer.status == 200 && o.answer.body.Claim? {
        AnswerProves(w, key, ClaimNext, key, o.answer);
        StartAckKeeps(w, i, Grip(key, o.answer.body.thread, o.answer.body.lease));
      } else {
        SitKeeps(w, i, seat.(phase := Idle, tries := 1));
      }
    }
    case Acking(g, key) => {
      if o.FromBoard? && 200 <= o.answer.status < 300 && !stopping {
        AnswerProves(w, key, Acknowledge(g.thread, g.lease), g.run, o.answer);
        SitKeeps(w, i, seat.(phase := Running(g), tries := 1));
      } else {
        StartReleaseKeeps(w, i, g, false);
      }
    }
    case Releasing(_, _, _) => SitKeeps(w, i, seat.(phase := Idle, tries := 1));
    case _ => {}
  }

  /** What a seat, or anyone else, does between arrivals. */
  lemma MoveKeeps(cfg: Config, w: World, s: Step)
    requires NetInv(w) && Recorded(w.hub) && Enabled(cfg, w, s) && !s.Arrive?
    ensures NetInv(Next(w, cfg, s)) && Next(w, cfg, s).hub == w.hub
  {
    match s
    case Begin(i) => BeginKeeps(w, i);
    case Retry(i, _) => {
      assert w.seats[i] in w.seats;
      SitKeeps(w, i, w.seats[i].(tries := w.seats[i].tries + 1));
    }
    case Conclude(i, o, stopping) => ConcludeKeeps(cfg, w, i, o, stopping);
    case Renewal(i) => {
      assert w.seats[i] in w.seats;
      var g := w.seats[i].phase.grip;
      MailKeeps(w, Post(Renew(g.thread, g.lease), true, Some(g.run)));
    }
    case Finish(i) => {
      assert w.seats[i] in w.seats;
      StartReleaseKeeps(w, i, w.seats[i].phase.grip, true);
    }
    case Aside(request, keyed) => MailKeeps(w, Post(request, keyed, None));
  }

  lemma StepKeeps(queue: seq<Thread>, cfg: Config, w: World, s: Step)
    requires Inv(queue, w) && Enabled(cfg, w, s)
    ensures Inv(queue, Next(w, cfg, s))
  {
    if s.Arrive? {
      var p := w.posts[s.post];
      HubServes(queue, w.hub, p.request, if p.keyed then Some(s.post) else None);
      ArriveKeepsNet(w, s.post);
    } else {
      MoveKeeps(cfg, w, s);
    }
  }

  ghost predicate Run(cfg: Config, w: World, steps: seq<Step>, end: World)
    decreases |steps|
  {
    if steps == [] then w == end
    else Enabled(cfg, w, steps[0]) && Run(cfg, Next(w, cfg, steps[0]), steps[1..], end)
  }

  lemma {:induction false} RunKeeps(queue: seq<Thread>, cfg: Config, w: World, steps: seq<Step>, end: World)
    requires Inv(queue, w) && Run(cfg, w, steps, end)
    ensures Inv(queue, end)
    decreases |steps|
  {
    if steps != [] {
      StepKeeps(queue, cfg, w, steps[0]);
      RunKeeps(queue, cfg, Next(w, cfg, steps[0]), steps[1..], end);
    }
  }

  // ------------------------------------------------- over every run of the seats

  /** Every thread is in exactly one place, and the board knows no others. */
  lemma ThreadsConserved(queue: seq<Thread>, seats: nat, cfg: Config, steps: seq<Step>, w: World)
    requires NoDuplicates(queue) && Run(cfg, Start(queue, seats), steps, w)
    ensures forall t :: t in queue ==> Placed(w.hub.state, t)
    ensures forall t :: Queued(w.hub.state, t) || Held(w.hub.state, t) || ReleasedIn(w.hub.state.log, t) ==> t in queue
  {
    StartInv(queue, seats);
    RunKeeps(queue, cfg, Start(queue, seats), steps, w);
    assert forall t :: t in queue <==> t in (set t | t in queue);
  }

  /** Threads are claimed in the order they were queued in: the record's claims and
      the queue make up the list the board was opened with. */
  lemma ClaimsInOrder(queue: seq<Thread>, seats: nat, cfg: Config, steps: seq<Step>, w: World)
    requires NoDuplicates(queue) && Run(cfg, Start(queue, seats), steps, w)
    ensures ClaimsOf(w.hub.state.log) + w.hub.state.queue == queue
  {
    StartInv(queue, seats);
    RunKeeps(queue, cfg, Start(queue, seats), steps, w);
  }

  /** A write without an answer, or with a passing failure, can be tried again for
      as many attempts as are configured, and at least once; a retry asks for
      nothing new: it waits on the same key. After any other answer there is none. */
  lemma LostIsRetried(cfg: Config, w: World, i: nat, o: Outcome)
    requires i < |w.seats| && Writing(w.seats[i].phase) && Comes(w, w.seats[i].phase.key, o)
    ensures var configured := if w.seats[i].phase.Releasing? then cfg.releaseAttempts else cfg.claimAttempts;
      Enabled(cfg, w, Retry(i, o)) <==>
        && w.seats[i].tries < (if configured == 0 then 1 else configured)
        && (o.Unreachable? || o.Elsewhere? || o.answer.status in RETRY_STATUSES)
    ensures Comes(w, w.seats[i].phase.key, Unreachable)
    ensures Enabled(cfg, w, Retry(i, o)) ==>
      var next := Next(w, cfg, Retry(i, o));
      && next.posts == w.posts && next.hub == w.hub && next.seats[i].phase == w.seats[i].phase
      && next.seats[i].tries == w.seats[i].tries + 1
  {
  }

  ghost predicate Bounded(cfg: Config, w: World) {
    forall i :: 0 <= i < |w.seats| ==> w.seats[i].tries <= Attempts(cfg, w.seats[i].phase)
  }

  /** No seat makes more tries of a write than it may. */
  lemma {:induction false} TriesBounded(cfg: Config, w: World, steps: seq<Step>, end: World)
    requires Bounded(cfg, w) && Run(cfg, w, steps, end)
    ensures Bounded(cfg, end)
    decreases |steps|
  {
    if steps != [] {
      StepBounded(cfg, w, steps[0]);
      TriesBounded(cfg, Next(w, cfg, steps[0]), steps[1..], end);
    }
  }

  lemma StepBounded(cfg: Config, w: World, s: Step)
    requires Bounded(cfg, w) && Enabled(cfg, w, s)
    ensures Bounded(cfg, Next(w, cfg, s))
  {
  }

  /** Every recorded write is under the lease live at that moment: issued by the
      only claim of its thread, and not released since. */
  lemma WritesFenced(queue: seq<Thread>, seats: nat, cfg: Config, steps: seq<Step>, w: World)
    requires NoDuplicates(queue) && Run(cfg, Start(queue, seats), steps, w)
    ensures Fenced(w.hub.state.log) && ClaimedOnce(w.hub.state.log)
  {
    StartInv(queue, seats);
    RunKeeps(queue, cfg, Start(queue, seats), steps, w);
  }

  /** Effect `a` is a claim taken by a post of `run`. */
  ghost predicate TakenBy(w: World, a: nat, run: Key) {
    && a < |w.hub.effects| && Claims(w.hub.effects[a]) && w.hub.effects[a].key.Some?
    && w.hub.effects[a].key.value < |w.posts| && w.posts[w.hub.effects[a].key.value].run == Some(run)
  }

  /** A claim taken by a run was taken under the run's own key. */
  lemma TakenUnderItsKey(queue: seq<Thread>, w: World, a: nat, run: Key)
    requires Inv(queue, w) && TakenBy(w, a, run)
    ensures w.hub.effects[a].key == Some(run)
  {
    var e := w.hub.effects[a];
    assert e in w.hub.effects && RunPost(w.posts[e.key.value], e.key.value);
  }

  lemma OneEffectOfKey(hub: Hub, a: nat, b: nat)
    requires Ledger(hub) && a < |hub.effects| && b < |hub.effects|
    requires hub.effects[a].key.Some? && hub.effects[a].key == hub.effects[b].key
    ensures a == b
  {
  }

  lemma OneTaken(queue: seq<Thread>, w: World, run: Key, a: nat, b: nat)
    requires Inv(queue, w) && TakenBy(w, a, run) && TakenBy(w, b, run)
    ensures a == b
  {
    TakenUnderItsKey(queue, w, a, run);
    TakenUnderItsKey(queue, w, b, run);
    OneEffectOfKey(w.hub, a, b);
  }

  lemma TakenIsLearned(queue: seq<Thread>, w: World, g: Grip, a: nat)
    requires Inv(queue, w) && TakenBy(w, a, g.run) && Gripped(w.hub, g)
    ensures w.hub.effects[a] == Effect(Some(g.run), ClaimNext, Answer(200, Claim(g.thread, g.lease)))
  {
    TakenUnderItsKey(queue, w, a, g.run);
    var e := Effect(Some(g.run), ClaimNext, Answer(200, Claim(g.thread, g.lease)));
    var b :| 0 <= b < |w.hub.effects| && w.hub.effects[b] == e;
    OneEffectOfKey(w.hub, a, b);
  }

  /** A run takes at most one claim, whatever became of its requests and its
      answers: two claims taken by its posts are one effect, and a claim it
      learned of is that effect. All its posts are keyed, so no claim of it
      escapes the count. */
  lemma OneClaimPerRun(queue: seq<Thread>, seats: nat, cfg: Config, steps: seq<Step>, w: World, run: Key)
    requires NoDuplicates(queue) && Run(cfg, Start(queue, seats), steps, w)
    ensures forall a: nat, b: nat :: TakenBy(w, a, run) && TakenBy(w, b, run) ==> a == b
    ensures forall a: nat, g: Grip :: TakenBy(w, a, run) && Gripped(w.hub, g) && g.run == run ==>
      w.hub.effects[a] == Effect(Some(run), ClaimNext, Answer(200, Claim(g.thread, g.lease)))
    ensures forall k :: 0 <= k < |w.posts| && w.posts[k].run == Some(run) ==> w.posts[k].keyed
  {
    StartInv(queue, seats);
    RunKeeps(queue, cfg, Start(queue, seats), steps, w);
    forall a: nat, b: nat | TakenBy(w, a, run) && TakenBy(w, b, run) ensures a == b {
      OneTaken(queue, w, run, a, b);
    }
    forall a: nat, g: Grip | TakenBy(w, a, run) && Gripped(w.hub, g) && g.run == run
      ensures w.hub.effects[a] == Effect(Some(run), ClaimNext, Answer(200, Claim(g.thread, g.lease)))
    {
      TakenIsLearned(queue, w, g, a);
    }
    assert forall k :: 0 <= k < |w.posts| ==> RunPost(w.posts[k], k);
  }

  /** A seat past its claim has it. */
  ghost predicate Grips(s: Seat) {
    s.phase.Acking? || s.phase.Running? || s.phase.Releasing?
  }

  /** No two seats ever have the same thread. */
  lemma SeatsApart(queue: seq<Thread>, seats: nat, cfg: Config, steps: seq<Step>, w: World, i: nat, j: nat)
    requires NoDuplicates(queue) && Run(cfg, Start(queue, seats), steps, w)
    requires i < j < |w.seats| && Grips(w.seats[i]) && Grips(w.seats[j])
    ensures w.seats[i].phase.grip.thread != w.seats[j].phase.grip.thread
  {
    StartInv(queue, seats);
    RunKeeps(queue, cfg, Start(queue, seats), steps, w);
    var g, h := w.seats[i].phase.grip, w.seats[j].phase.grip;
    assert w.seats[i] in w.seats && w.seats[j] in w.seats;
    GripsDiffer(queue, w.hub, g, h);
  }

  lemma GripsDiffer(queue: seq<Thread>, hub: Hub, g: Grip, h: Grip)
    requires HubInv(queue, hub) && Gripped(hub, g) && Gripped(hub, h) && g.run != h.run
    ensures g.thread != h.thread
  {
    var a :| 0 <= a < |hub.effects| && hub.effects[a] == Effect(Some(g.run), ClaimNext, Answer(200, Claim(g.thread, g.lease)));
    var b :| 0 <= b < |hub.effects| && hub.effects[b] == Effect(Some(h.run), ClaimNext, Answer(200, Claim(h.thread, h.lease)));
    assert Claims(hub.effects[a]) && Claims(hub.effects[b]);
  }

  /** The board has the claim on record, and its acknowledgement after it. */
  ghost predicate ClaimThenAck(log: seq<Event>, g: Grip) {
    exists a, b :: 0 <= a < b < |log| && log[a] == Claimed(g.thread, g.lease) && log[b] == Wrote(Acknowledge(g.thread, g.lease))
  }

  /** Nothing is run without an acknowledged claim, and the seat has not asked
      to release what it is running. */
  lemma RunningHolds(queue: seq<Thread>, seats: nat, cfg: Config, steps: seq<Step>, w: World, i: nat)
    requires NoDuplicates(queue) && Run(cfg, Start(queue, seats), steps, w)
    requires i < |w.seats| && w.seats[i].phase.Running?
    ensures ClaimThenAck(w.hub.state.log, w.seats[i].phase.grip) && Unreleased(w.posts, w.seats[i].phase.grip.run)
  {
    StartInv(queue, seats);
    RunKeeps(queue, cfg, Start(queue, seats), steps, w);
    assert w.seats[i] in w.seats;
    var log, g := w.hub.state.log, w.seats[i].phase.grip;
    AckFollowsClaim(log, g);
  }

  lemma AckFollowsClaim(log: seq<Event>, g: Grip)
    requires Fenced(log) && Wrote(Acknowledge(g.thread, g.lease)) in log
    ensures ClaimThenAck(log, g)
  {
    var b :| 0 <= b < |log| && log[b] == Wrote(Acknowledge(g.thread, g.lease));
    var a :| 0 <= a < |log[..b]| && log[..b][a] == Claimed(g.thread, g.lease);
    assert log[a] == Claimed(g.thread, g.lease);
  }

  // ------------------------------------------------- what becomes of a claim

  /** In world `w` this step tells seat `i` of the claim `g`. */
  predicate Learns(w: World, s: Step, i: nat, g: Grip) {
    && i < |w.seats| && w.seats[i].phase == Claiming(g.run)
    && s.Conclude? && s.seat == i && s.outcome == FromBoard(Answer(200, Claim(g.thread, g.lease)))
  }

  ghost predicate InHand(w: World, i: nat, g: Grip) {
    i < |w.seats| && Grips(w.seats[i]) && w.seats[i].phase.grip == g
  }

  ghost predicate ReleasePosted(posts: seq<Post>, g: Grip, from: nat) {
    exists k :: from <= k && PostedBy(posts, k, Release(g.thread, g.lease), g.run)
  }

  /** The claim is in hand with no release asked for yet, or a release was asked
      for with a post not older than `from`. */
  ghost predicate LookedAfter(w: World, i: nat, g: Grip, from: nat) {
    (InHand(w, i, g) && !w.seats[i].phase.Releasing?) || ReleasePosted(w.posts, g, from)
  }

  lemma PostsGrow(cfg: Config, w: World, s: Step)
    requires Enabled(cfg, w, s)
    ensures w.posts <= Next(w, cfg, s).posts
  {
  }

  lemma ReleaseStays(posts: seq<Post>, more: seq<Post>, g: Grip, from: nat)
    requires ReleasePosted(posts, g, from) && posts <= more
    ensures ReleasePosted(more, g, from)
  {
    var k :| from <= k && PostedBy(posts, k, Release(g.thread, g.lease), g.run);
    assert PostedBy(more, k, Release(g.thread, g.lease), g.run);
  }

  /** No step makes a seat let go of a claim without a release. */
  lemma StepLooksAfter(cfg: Config, w: World, s: Step, i: nat, g: Grip, from: nat)
    requires Enabled(cfg, w, s) && LookedAfter(w, i, g, from) && from <= |w.posts|
    ensures LookedAfter(Next(w, cfg, s), i, g, from)
  {
    var next := Next(w, cfg, s);
    PostsGrow(cfg, w, s);
    if ReleasePosted(w.posts, g, from) {
      ReleaseStays(w.posts, next.posts, g, from);
    } else if next.seats[i].phase.Releasing? {
      assert PostedBy(next.posts, |w.posts|, Release(g.thread, g.lease), g.run);
    }
  }

  lemma {:induction false} RunLooksAfter(cfg: Config, w: World, steps: seq<Step>, end: World,
                                         i: nat, g: Grip, from: nat)
    requires Run(cfg, w, steps, end) && LookedAfter(w, i, g, from) && from <= |w.posts|
    ensures LookedAfter(end, i, g, from) && w.posts <= end.posts
    decreases |steps|
  {
    if steps != [] {
      var next := Next(w, cfg, steps[0]);
      StepLooksAfter(cfg, w, steps[0], i, g, from);
      PostsGrow(cfg, w, steps[0]);
      RunLooksAfter(cfg, next, steps[1..], end, i, g, from);
    }
  }

  /** From the step that told a seat of a claim on, in every run, the seat has
      the claim in hand or has asked for its release. */
  lemma LearnedIsReleased(cfg: Config, w: World, s: Step, after: seq<Step>, end: World, i: nat, g: Grip)
    requires Enabled(cfg, w, s) && Learns(w, s, i, g) && Run(cfg, Next(w, cfg, s), after, end)
    ensures InHand(end, i, g) || ReleasePosted(end.posts, g, |w.posts|)
  {
    RunLooksAfter(cfg, Next(w, cfg, s), after, end, i, g, |w.posts|);
  }

  lemma RunningUnreleased(queue: seq<Thread>, w: World, i: nat, g: Grip)
    requires Inv(queue, w) && i < |w.seats| && w.seats[i].phase == Running(g)
    ensures Unreleased(w.posts, g.run)
  {
    assert w.seats[i] in w.seats;
  }

  /** A release follows the process run: however a run goes on from a world in
      which a seat is running its claim, the seat has the claim in hand or has
      asked for its release since, and every release its run ever posts comes
      after that world. */
  lemma ReleaseFollowsRun(queue: seq<Thread>, seats: nat, cfg: Config, before: seq<Step>, w: World,
                          after: seq<Step>, end: World, i: nat, g: Grip)
    requires NoDuplicates(queue) && Run(cfg, Start(queue, seats), before, w)
    requires i < |w.seats| && w.seats[i].phase == Running(g) && Run(cfg, w, after, end)
    ensures InHand(end, i, g) || ReleasePosted(end.posts, g, |w.posts|)
    ensures forall k :: 0 <= k < |end.posts| && end.posts[k].run == Some(g.run) && end.posts[k].request.Release? ==>
      k >= |w.posts|
  {
    assert Unreleased(w.posts, g.run) by {
      StartInv(queue, seats);
      RunKeeps(queue, cfg, Start(queue, seats), before, w);
      RunningUnreleased(queue, w, i, g);
    }
    RunLooksAfter(cfg, w, after, end, i, g, |w.posts|);
    LaterReleases(w.posts, end.posts, g.run);
  }

  lemma LaterReleases(posts: seq<Post>, more: seq<Post>, run: Key)
    requires posts <= more && Unreleased(posts, run)
    ensures forall k :: 0 <= k < |more| && more[k].run == Some(run) && more[k].request.Release? ==> k >= |posts|
  {
  }

  // ---------------------------------------------------------- what a seat decides

  /** In every run: a seat that waits for the acknowledgement of its claim goes on
      to run it exactly when it hears from the board that it was acknowledged and
      is not stopping, and then the board has it on record; otherwise it asks for
      the release, with nothing run. */
  lemma AckDecides(queue: seq<Thread>, seats: nat, cfg: Config, steps: seq<Step>, w: World, i: nat, g: Grip, key: Key,
                   o: Outcome, stopping: bool)
    requires NoDuplicates(queue) && Run(cfg, Start(queue, seats), steps, w)
    requires i < |w.seats| && w.seats[i].phase == Acking(g, key) && Enabled(cfg, w, Conclude(i, o, stopping))
    ensures var next := Next(w, cfg, Conclude(i, o, stopping));
      && (next.seats[i].phase == Running(g) <==> o.FromBoard? && 200 <= o.answer.status < 300 && !stopping)
      && (next.seats[i].phase == Running(g) ==> ClaimThenAck(next.hub.state.log, g) && next.posts == w.posts)
      && (next.seats[i].phase != Running(g) ==>
            && next.seats[i].phase == Releasing(g, |w.posts|, false)
            && next.posts == w.posts + [Post(Release(g.thread, g.lease), true, Some(g.run))])
  {
    var s := Conclude(i, o, stopping);
    AckTaken(cfg, w, i, g, key, o, stopping);
    if Next(w, cfg, s).seats[i].phase == Running(g) {
      RunThen(cfg, Start(queue, seats), steps, w, s);
      RunningHolds(queue, seats, cfg, steps + [s], Next(w, cfg, s), i);
    }
  }

  lemma AckTaken(cfg: Config, w: World, i: nat, g: Grip, key: Key, o: Outcome, stopping: bool)
    requires i < |w.seats| && w.seats[i].phase == Acking(g, key) && Enabled(cfg, w, Conclude(i, o, stopping))
    ensures var next := Next(w, cfg, Conclude(i, o, stopping));
      && |next.seats| == |w.seats|
      && (next.seats[i].phase == Running(g) <==> o.FromBoard? && 200 <= o.answer.status < 300 && !stopping)
      && (next.seats[i].phase == Running(g) ==> next.posts == w.posts)
      && (next.seats[i].phase != Running(g) ==>
            && next.seats[i].phase == Releasing(g, |w.posts|, false)
            && next.posts == w.posts + [Post(Release(g.thread, g.lease), true, Some(g.run))])
  {
  }

  lemma {:induction false} RunThen(cfg: Config, w: World, steps: seq<Step>, end: World, s: Step)
    requires Run(cfg, w, steps, end) && Enabled(cfg, end, s)
    ensures Run(cfg, w, steps + [s], Next(end, cfg, s))
    decreases |steps|
  {
    if steps == [] {
      RunOn(cfg, w, s, [], Next(end, cfg, s));
      assert steps + [s] == [s] + [];
    } else {
      RunThen(cfg, Next(w, cfg, steps[0]), steps[1..], end, s);
      RunOn(cfg, w, steps[0], steps[1..] + [s], Next(end, cfg, s));
      assert steps + [s] == [steps[0]] + (steps[1..] + [s]);
    }
  }

  lemma RunOn(cfg: Config, w: World, s: Step, steps: seq<Step>, end: World)
    requires Enabled(cfg, w, s) && Run(cfg, Next(w, cfg, s), steps, end)
    ensures Run(cfg, w, [s] + steps, end)
  {
    assert ([s] + steps)[1..] == steps;
  }

  /** In every run: a seat that waits for its claim has one in hand exactly when
      it hears of it from the board, and it is the one the board has on record for
      that very run; otherwise it is idle again, and has asked for nothing. */
  lemma ClaimDecides(queue: seq<Thread>, seats: nat, cfg: Config, steps: seq<Step>, w: World, i: nat, key: Key,
                     o: Outcome, stopping: bool)
    requires NoDuplicates(queue) && Run(cfg, Start(queue, seats), steps, w)
    requires i < |w.seats| && w.seats[i].phase == Claiming(key) && Enabled(cfg, w, Conclude(i, o, stopping))
    ensures var next := Next(w, cfg, Conclude(i, o, stopping));
      && (Grips(next.seats[i]) <==> o.FromBoard? && o.answer.status == 200 && o.answer.body.Claim?)
      && (Grips(next.seats[i]) ==>
            var g := next.seats[i].phase.grip;
            && o.answer == Answer(200, Claim(g.thread, g.lease)) && g.run == key && Gripped(next.hub, g)
            && next.posts == w.posts + [Post(Acknowledge(g.thread, g.lease), true, Some(key))])
      && (!Grips(next.seats[i]) ==> next.seats[i].phase.Idle? && next.posts == w.posts)
  {
    var s := Conclude(i, o, stopping);
    ClaimTaken(cfg, w, i, key, o, stopping);
    var next := Next(w, cfg, s);
    if Grips(next.seats[i]) {
      StartInv(queue, seats);
      RunKeeps(queue, cfg, Start(queue, seats), steps, w);
      StepKeeps(queue, cfg, w, s);
      GripIsGripped(queue, next, i);
    }
  }

  lemma GripIsGripped(queue: seq<Thread>, w: World, i: nat)
    requires Inv(queue, w) && i < |w.seats| && Grips(w.seats[i])
    ensures Gripped(w.hub, w.seats[i].phase.grip)
  {
    assert w.seats[i] in w.seats;
  }

  lemma ClaimTaken(cfg: Config, w: World, i: nat, key: Key, o: Outcome, stopping: bool)
    requires i < |w.seats| && w.seats[i].phase == Claiming(key) && Enabled(cfg, w, Conclude(i, o, stopping))
    ensures var next := Next(w, cfg, Conclude(i, o, stopping));
      && |next.seats| == |w.seats|
      && (Grips(next.seats[i]) <==> o.FromBoard? && o.answer.status == 200 && o.answer.body.Claim?)
      && (Grips(next.seats[i]) ==>
            var g := next.seats[i].phase.grip;
            && o.answer == Answer(200, Claim(g.thread, g.lease)) && g.run == key
            && next.posts == w.posts + [Post(Acknowledge(g.thread, g.lease), true, Some(key))])
      && (!Grips(next.seats[i]) ==> next.seats[i].phase.Idle? && next.posts == w.posts)
  {
  }

  // ------------------------------------------------------------- work gets done

  /** A post that has just been made arrives for the first time: the board routes
      it, and its answer is heard. */
  lemma FreshArrives(w: World, q: Request, run: Option<Key>)
    requires w.posts != [] && w.posts[|w.posts| - 1] == Post(q, true, run)
    requires forall k :: k in w.hub.keys ==> k < |w.posts| - 1
    ensures var k := |w.posts| - 1;
      var next := Arrived(w, k);
      && next.hub.state == Route(w.hub.state, q).state && Heard(k, Route(w.hub.state, q).answer) in next.heard
      && next.seats == w.seats && next.posts == w.posts
      && forall j :: j in next.hub.keys ==> j < |w.posts|
  {
    var k := |w.posts| - 1;
    assert Arrived(w, k).heard[|w.heard|] == Heard(k, Route(w.hub.state, q).answer);
  }

  /** Two steps, one after the other. */
  ghost predicate Twice(cfg: Config, w: World, s: Step, t: Step, end: World) {
    Enabled(cfg, w, s) && Enabled(cfg, Next(w, cfg, s), t) && end == Next(Next(w, cfg, s), cfg, t)
  }

  /** From a world where seat `i` has just posted its claim: it arrives and is
      heard of. */
  lemma ClaimGoesThrough(cfg: Config, w: World, i: nat, k: Key) returns (heard: Outcome, end: World)
    requires i < |w.seats| && w.seats[i].phase == Claiming(k) && w.posts != [] && k == |w.posts| - 1
    requires w.posts[k] == Post(ClaimNext, true, Some(k)) && (forall j :: j in w.hub.keys ==> j < k)
    requires w.hub.state.queue != []
    ensures Twice(cfg, w, Arrive(k), Conclude(i, heard, false), end)
    ensures var b := w.hub.state;
      && i < |end.seats| && end.seats[i].phase == Acking(Grip(k, b.queue[0], b.nextLease), k + 1)
      && end.posts == w.posts + [Post(Acknowledge(b.queue[0], b.nextLease), true, Some(k))]
      && b.queue[0] in end.hub.state.leases && end.hub.state.leases[b.queue[0]] == b.nextLease
      && forall j :: j in end.hub.keys ==> j < |w.posts|
  {
    var b := w.hub.state;
    FreshArrives(w, ClaimNext, Some(k));
    heard := FromBoard(Answer(200, Claim(b.queue[0], b.nextLease)));
    end := Concluded(Arrived(w, k), i, heard, false);
  }

  /** From one where it has just posted the acknowledgement of a claim it has. */
  lemma AckGoesThrough(cfg: Config, w: World, i: nat, g: Grip, k: Key) returns (heard: Outcome, end: World)
    requires i < |w.seats| && w.seats[i].phase == Acking(g, k) && w.posts != [] && k == |w.posts| - 1
    requires w.posts[k] == Post(Acknowledge(g.thread, g.lease), true, Some(g.run))
    requires forall j :: j in w.hub.keys ==> j < k
    requires g.thread in w.hub.state.leases && w.hub.state.leases[g.thread] == g.lease
    ensures Twice(cfg, w, Arrive(k), Conclude(i, heard, false), end)
    ensures i < |end.seats| && end.seats[i].phase == Running(g)
  {
    FreshArrives(w, Acknowledge(g.thread, g.lease), Some(g.run));
    heard := FromBoard(Answer(200, Done));
    end := Concluded(Arrived(w, k), i, heard, false);
  }

  lemma RunTwice(cfg: Config, w: World, s: Step, t: Step, mid: World, steps: seq<Step>, end: World)
    requires Twice(cfg, w, s, t, mid) && Run(cfg, mid, steps, end)
    ensures Run(cfg, w, [s] + ([t] + steps), end)
  {
    RunOn(cfg, Next(w, cfg, s), t, steps, end);
    RunOn(cfg, w, s, [t] + steps, end);
  }

  /** Work can begin: from every world a run reaches, with an idle seat and a
      thread in the queue, the run can go on to the seat running the first of
      them. */
  lemma WorkBegins(queue: seq<Thread>, seats: nat, cfg: Config, steps: seq<Step>, w: World, i: nat)
    returns (more: seq<Step>, end: World)
    requires NoDuplicates(queue) && Run(cfg, Start(queue, seats), steps, w)
    requires i < |w.seats| && w.seats[i].phase.Idle? && w.hub.state.queue != []
    ensures Run(cfg, w, more, end) && i < |end.seats|
    ensures end.seats[i].phase == Running(Grip(|w.posts|, w.hub.state.queue[0], w.hub.state.nextLease))
  {
    assert KeysPosted(w) by {
      StartInv(queue, seats);
      RunKeeps(queue, cfg, Start(queue, seats), steps, w);
    }
    var k := |w.posts|;
    var g := Grip(k, w.hub.state.queue[0], w.hub.state.nextLease);
    var asked := Next(w, cfg, Begin(i));
    var claimed, mid := ClaimGoesThrough(cfg, asked, i, k);
    var acked;
    acked, end := AckGoesThrough(cfg, mid, i, g, k + 1);
    var last := [Arrive(k + 1)] + ([Conclude(i, acked, false)] + []);
    RunTwice(cfg, mid, Arrive(k + 1), Conclude(i, acked, false), end, [], end);
    RunTwice(cfg, asked, Arrive(k), Conclude(i, claimed, false), mid, last, end);
    more := [Begin(i)] + ([Arrive(k)] + ([Conclude(i, claimed, false)] + last));
    RunOn(cfg, w, Begin(i), [Arrive(k)] + ([Conclude(i, claimed, false)] + last), end);
  }

  /** A thread the seat has is held under its lease, or was released. */
  lemma GrippedIsPlaced(queue: seq<Thread>, hub: Hub, g: Grip)
    requires HubInv(queue, hub) && Gripped(hub, g)
    ensures ReleasedIn(hub.state.log, g.thread)
      || (g.thread in hub.state.leases && hub.state.leases[g.thread] == g.lease)
  {
    var b := hub.state;
    var e := Effect(Some(g.run), ClaimNext, Answer(200, Claim(g.thread, g.lease)));
    assert e in hub.effects && Claims(e) && Claimed(g.thread, g.lease) in b.log;
    if Queued(b, g.thread) {
      assert ClaimedIn(b.log, g.thread);
    } else if Held(b, g.thread) {
      var l := b.leases[g.thread];
      var x :| 0 <= x < |b.log| && b.log[x] == Claimed(g.thread, g.lease);
      var y :| 0 <= y < |b.log| && b.log[y] == Claimed(g.thread, l);
      assert x == y;
    } else {
      assert ClaimedIn(b.log, g.thread);
    }
  }

  /** Work can end: from every world a run reaches with a seat running a thread,
      the run can go on to the seat releasing it as run, and then to the thread
      released and the seat idle again, whatever others did to the thread. */
  lemma WorkEnds(queue: seq<Thread>, seats: nat, cfg: Config, steps: seq<Step>, w: World, i: nat)
    returns (more: seq<Step>, end: World)
    requires NoDuplicates(queue) && Run(cfg, Start(queue, seats), steps, w)
    requires i < |w.seats| && w.seats[i].phase.Running?
    ensures more != [] && Enabled(cfg, w, more[0]) && Run(cfg, Next(w, cfg, more[0]), more[1..], end)
    ensures var g := w.seats[i].phase.grip;
      && Next(w, cfg, more[0]).seats[i].phase == Releasing(g, |w.posts|, true)
      && i < |end.seats| && end.seats[i].phase.Idle? && ReleasedIn(end.hub.state.log, g.thread)
  {
    var g, k := w.seats[i].phase.grip, |w.posts|;
    assert KeysPosted(w) && (ReleasedIn(w.hub.state.log, g.thread)
      || (g.thread in w.hub.state.leases && w.hub.state.leases[g.thread] == g.lease)) by {
      StartInv(queue, seats);
      RunKeeps(queue, cfg, Start(queue, seats), steps, w);
      assert w.seats[i] in w.seats;
      GrippedIsPlaced(queue, w.hub, g);
    }
    var asked := Next(w, cfg, Finish(i));
    var heard;
    heard, end := ReleaseGoesThrough(cfg, asked, i, g, k);
    more := [Finish(i)] + ([Arrive(k)] + ([Conclude(i, heard, false)] + []));
    RunTwice(cfg, asked, Arrive(k), Conclude(i, heard, false), end, [], end);
    assert more[1..] == [Arrive(k)] + ([Conclude(i, heard, false)] + []);
  }

  /** From a world where seat `i` has just posted the release of what it has. */
  lemma ReleaseGoesThrough(cfg: Config, w: World, i: nat, g: Grip, k: Key) returns (heard: Outcome, end: World)
    requires i < |w.seats| && w.seats[i].phase.Releasing? && w.seats[i].phase.key == k
    requires w.posts != [] && k == |w.posts| - 1 && w.posts[k] == Post(Release(g.thread, g.lease), true, Some(g.run))
    requires forall j :: j in w.hub.keys ==> j < k
    requires ReleasedIn(w.hub.state.log, g.thread)
      || (g.thread in w.hub.state.leases && w.hub.state.leases[g.thread] == g.lease)
    ensures Twice(cfg, w, Arrive(k), Conclude(i, heard, false), end)
    ensures i < |end.seats| && end.seats[i].phase.Idle? && ReleasedIn(end.hub.state.log, g.thread)
  {
    var q := Release(g.thread, g.lease);
    FreshArrives(w, q, Some(g.run));
    ReleaseRoutes(w.hub.state, g.thread, g.lease);
    heard := FromBoard(Route(w.hub.state, q).answer);
    end := Concluded(Arrived(w, k), i, heard, false);
  }

  lemma ReleaseRoutes(b: Board, t: Thread, l: Lease)
    requires ReleasedIn(b.log, t) || (t in b.leases && b.leases[t] == l)
    ensures ReleasedIn(Route(b, Release(t, l)).state.log, t)
  {
    var log := Route(b, Release(t, l)).state.log;
    if log == b.log + [Wrote(Release(t, l))] {
      assert log[|b.log|] == Wrote(Release(t, l));
    }
    if ReleasedIn(b.log, t) {
      var m :| Wrote(Release(t, m)) in b.log;
      assert Wrote(Release(t, m)) in log;
    }
  }

  /** From the start: with a thread in the queue and a seat, there is a run in which
      the seat runs the first thread, and one that goes on to its release as run
      and the thread released. */
  lemma WorkGetsDone(queue: seq<Thread>, seats: nat, cfg: Config)
    returns (steps: seq<Step>, running: World, more: seq<Step>, end: World)
    requires NoDuplicates(queue) && queue != [] && seats > 0
    ensures Run(cfg, Start(queue, seats), steps, running) && 0 < |running.seats|
    ensures running.seats[0].phase == Running(Grip(0, queue[0], 0))
    ensures more != [] && Enabled(cfg, running, more[0]) && Run(cfg, Next(running, cfg, more[0]), more[1..], end)
    ensures Next(running, cfg, more[0]).seats[0].phase.Releasing? && Next(running, cfg, more[0]).seats[0].phase.ran
    ensures ReleasedIn(end.hub.state.log, queue[0])
  {
    steps, running := WorkBegins(queue, seats, cfg, [], Start(queue, seats), 0);
    more, end := WorkEnds(queue, seats, cfg, steps, running, 0);
  }
}
