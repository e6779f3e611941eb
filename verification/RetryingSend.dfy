/**
 The client's `send`: one write, one Idempotency-Key, retried over a network
 that loses requests, loses or cuts short answers, answers in the server's
 place, and delivers old copies late.
 */
module RetryingSend {
  import opened Basics
  import opened Idempotency

  // ------------------------------------------------------------------- waiting

  /** A wait doubled once per try. */
  function Doubled(seconds: real, attempt: nat): (doubled: real)
    ensures seconds >= 0.0 ==> doubled >= seconds
  {
    if attempt == 0 then seconds else 2.0 * Doubled(seconds, attempt - 1)
  }

  function MinReal(a: real, b: real): real {
    if a <= b then a else b
  }

  /** What a Retry-After header parses to, when it parses to a float. */
  datatype Seconds = Number(value: real) | Infinite(negative: bool) | NotANumber

  /** How long the server asked the client to wait: a header that is not at least
      zero asks for nothing. */
  function Asked(retryAfter: Option<Seconds>): (seconds: Option<real>)
    ensures seconds.Some? ==> 0.0 <= seconds.value <= 60.0
    ensures forall v :: retryAfter == Some(Number(v)) && 0.0 <= v <= 60.0 ==> seconds == Some(v)
    ensures forall v :: retryAfter == Some(Number(v)) && v > 60.0 ==> seconds == Some(60.0)
    ensures seconds.None? <==> retryAfter.None? || match retryAfter.value
      case Number(v) => v < 0.0
      case Infinite(negative) => negative
      case NotANumber => true
  {
    match retryAfter
    case Some(Number(v)) => if v >= 0.0 then Some(MinReal(v, 60.0)) else None
    case Some(Infinite(negative)) => if negative then None else Some(60.0)
    case _ => None
  }

  /** The doubling base of the client's own wait. */
  function Base(attempt: nat): (base: real)
    ensures 0.5 <= base <= 8.0
  {
    MinReal(8.0, Doubled(0.5, attempt))
  }

  type Fraction = x: real | 0.0 <= x < 1.0

  /** From half a second, doubling, to eight. */
  lemma BaseDoubles(attempt: nat)
    ensures Base(0) == 0.5
    ensures Base(attempt + 1) == MinReal(8.0, 2.0 * Base(attempt))
  {
  }

  lemma PartOf(base: real, random: Fraction)
    requires base > 0.0
    ensures 0.0 <= random * base < base
  {
    assert (1.0 - random) * base > 0.0;
  }

  /** Half the base and as much again at random. */
  function Jittered(base: real, random: Fraction): (seconds: real)
    requires 0.5 <= base <= 8.0
    ensures base / 2.0 <= seconds < base
  {
    PartOf(base, random);
    var part := random * base;
    base / 2.0 + part / 2.0
  }

  /** What the server asked for, or the client's own wait. */
  function RetryDelay(attempt: nat, retryAfter: Option<Seconds>, random: Fraction): (seconds: real)
    ensures 0.0 <= seconds <= 60.0
    ensures Asked(retryAfter).Some? ==> seconds == Asked(retryAfter).value
    ensures Asked(retryAfter).None? ==> Base(attempt) / 2.0 <= seconds < Base(attempt)
  {
    match Asked(retryAfter)
    case Some(seconds) => seconds
    case None => Jittered(Base(attempt), random)
  }

  // ------------------------------------------------------------ judging answers

  /** How the client reads an answer's body. */
  datatype Reading<!A> = Reading(jsonAnswer: bool, garbled: A -> bool, inFlight: A -> bool)

  predicate Retryable<A>(how: Reading<A>, answer: Answer<A>) {
    answer.status in {408, 429, 500, 502, 503, 504} || (answer.status == 409 && how.inFlight(answer.body))
  }

  predicate NotJson<A>(how: Reading<A>, answer: Answer<A>) {
    how.jsonAnswer && 200 <= answer.status < 300 && answer.status != 204 && how.garbled(answer.body)
  }

  // ------------------------------------------------------------------ the network

  /** What the client sees of one attempt. */
  datatype Seen<A> = NoReply | CutShort | Instead(answer: Answer<A>) | Genuine

  /** One attempt: what arrives at the server before it, whether it arrives, and
      what comes back. */
  datatype Fate<K, Q, A> =
    Fate(meanwhile: seq<Arrival<K, Q>>, arrives: bool, seen: Seen<A>, retryAfter: Option<Seconds>)

  /** The faults of one key: other senders do not use it, only an arrived
      request gets a genuine answer, and an answer in the server's place is one
      the client can tell. */
  ghost predicate Fair<K, Q, A>(fates: seq<Fate<K, Q, A>>, how: Reading<A>, key: K, request: Q) {
    forall f :: f in fates ==>
      && OnlyCopies(f.meanwhile, key, request)
      && (f.seen.Genuine? ==> f.arrives)
      && (f.seen.Instead? ==> Retryable(how, f.seen.answer) || NotJson(how, f.seen.answer))
  }

  datatype Reply<A> = Lost | Got(answer: Answer<A>, retryAfter: Option<Seconds>)

  /** What comes back of an attempt whose genuine answer is `answer`. */
  function Shown<K, Q, A>(f: Fate<K, Q, A>, answer: Answer<A>): Reply<A> {
    match f.seen
    case NoReply => Lost
    case CutShort => Lost
    case Instead(a) => Got(a, f.retryAfter)
    case Genuine => if f.arrives then Got(answer, f.retryAfter) else Lost
  }

  /** The server behind a network; once the fates are used up it is reliable. */
  class Wire<S, K(==), Q(==), A> {
    const app: App<S, Q, A>
    var server: Server<S, K, Q, A>
    var fates: seq<Fate<K, Q, A>>
    var requests: nat

    constructor (app: App<S, Q, A>, server: Server<S, K, Q, A>, fates: seq<Fate<K, Q, A>>)
      ensures this.app == app && this.server == server && this.fates == fates && requests == 0
    {
      this.app, this.server, this.fates, requests := app, server, fates, 0;
    }

    /** What one attempt makes of the server. */
    ghost function Next(request: Q, key: K): Served<S, K, Q, A>
      reads this
    {
      if fates == [] then Serve(app, server, request, Some(key))
      else Serve(app, ServeAll(app, server, fates[0].meanwhile), request, Some(key))
    }

    method RoundTrip(request: Q, key: K) returns (reply: Reply<A>)
      modifies this
      ensures requests == old(requests) + 1
      ensures fates == if old(fates) == [] then [] else old(fates)[1..]
      ensures server == if old(fates) == [] || old(fates)[0].arrives then old(Next(request, key).server)
                        else ServeAll(app, old(server), old(fates)[0].meanwhile)
      ensures reply == if old(fates) == [] then Got(old(Next(request, key).answer), None)
                       else Shown(old(fates)[0], old(Next(request, key).answer))
    {
      requests := requests + 1;
      if fates == [] {
        var served := Serve(app, server, request, Some(key));
        server := served.server;
        return Got(served.answer, None);
      }
      var fate := fates[0];
      fates := fates[1..];
      server := ServeAll(app, server, fate.meanwhile);
      reply := if fate.seen.Instead? then Got(fate.seen.answer, fate.retryAfter) else Lost;
      if fate.arrives {
        var served := Serve(app, server, request, Some(key));
        server := served.server;
        if fate.seen.Genuine? {
          reply := Got(served.answer, fate.retryAfter);
        }
      }
    }
  }

  // --------------------------------------------------------------------- sending

  /** A network a write can be sent over: a sound server, a key of the write's
      own and faults the client can tell. */
  ghost predicate Ready<S(!new), K, Q(!new), A>(w: Wire<S, K, Q, A>, init: S, how: Reading<A>, key: K, request: Q)
    reads w
  {
    && Honest(w.app) && w.app.writes(request)
    && Sound(w.app, init, w.server) && Owns(w.server, key, request)
    && Fair(w.fates, how, key, request)
  }

  /** The next attempt does not bring the server's own answer. */
  predicate NextFaulty<K, Q, A>(fates: seq<Fate<K, Q, A>>) {
    fates != [] && !fates[0].seen.Genuine?
  }

  function Later<K, Q, A>(fates: seq<Fate<K, Q, A>>): seq<Fate<K, Q, A>> {
    if fates == [] then [] else fates[1..]
  }

  /** How many attempts do not bring the server's own answer. */
  function Faults<K, Q, A>(fates: seq<Fate<K, Q, A>>): nat {
    if fates == [] then 0 else (if fates[0].seen.Genuine? then 0 else 1) + Faults(fates[1..])
  }

  /** `reply` is what an attempt with these fates ahead shows, when the server's
      own answer is one that the application gives. */
  ghost predicate Shows<S(!new), K, Q, A(!new)>(app: App<S, Q, A>, request: Q, fates: seq<Fate<K, Q, A>>,
                                                reply: Reply<A>) {
    exists answer :: GivenBy(app, request, answer)
      && reply == if fates == [] then Got(answer, None) else Shown(fates[0], answer)
  }

  /** One attempt keeps the network ready; the server's own answer settles the
      write, and so does every answer the client does not retry. */
  method Attempt<S(!new), K(==), Q(==, !new), A(!new)>(w: Wire<S, K, Q, A>, ghost init: S, how: Reading<A>, key: K,
                                                       request: Q)
    returns (reply: Reply<A>)
    requires Ready(w, init, how, key, request)
    modifies w
    ensures Ready(w, init, how, key, request) && w.requests == old(w.requests) + 1
    ensures w.fates == Later(old(w.fates)) && Shows(w.app, request, old(w.fates), reply)
    ensures !NextFaulty(old(w.fates)) ==>
      reply.Got? && Settles(w.server, key, request, reply.answer)
    ensures reply.Got? && !Retryable(how, reply.answer) && !NotJson(how, reply.answer) ==> !NextFaulty(old(w.fates))
  {
    ghost var meanwhile := if w.fates == [] then [] else w.fates[0].meanwhile;
    ghost var mid := ServeAll(w.app, w.server, meanwhile);
    OncePerKey(w.app, init, w.server, meanwhile);
    CopiesKeepOwner(w.app, w.server, meanwhile, key, request);
    ServeSettles(w.app, mid, request, key);
    ServeGives(w.app, init, mid, request, key);
    ServeKeepsLedger(w.app, mid, request, Some(key));
    ServeExplained(w.app, init, mid, request, Some(key));
    ghost var fates := w.fates;
    ghost var answer := w.Next(request, key).answer;
    assert fates != [] ==> fates[0] in fates;
    reply := w.RoundTrip(request, key);
    assert reply == if fates == [] then Got(answer, None) else Shown(fates[0], answer);
  }

  /** The client asks again after this, if it has a try left. */
  predicate Again<A>(how: Reading<A>, reply: Reply<A>) {
    reply.Lost? || NotJson(how, reply.answer) || Retryable(how, reply.answer)
  }

  datatype Outcome<A> = NoAnswer | Unreadable(answer: Answer<A>) | Returned(answer: Answer<A>)

  /** What the last reply makes of the write. */
  function Verdict<A>(how: Reading<A>, reply: Reply<A>): Outcome<A> {
    if reply.Lost? then NoAnswer
    else if NotJson(how, reply.answer) then Unreadable(reply.answer)
    else Returned(reply.answer)
  }

  /** What a reply says of when to come back. */
  function Header<A>(reply: Reply<A>): Option<Seconds> {
    if reply.Lost? then None else reply.retryAfter
  }

  /** The wait after each of these replies, together. */
  function Waits<A>(heard: seq<Reply<A>>, random: nat -> Fraction): real {
    if heard == [] then 0.0
    else
      var k := |heard| - 1;
      Waits(heard[..k], random) + RetryDelay(k, Header(heard[k]), random(k))
  }

  /** What the server asked for after each of them, together. */
  function AskedFor<A>(heard: seq<Reply<A>>): real {
    if heard == [] then 0.0
    else
      var k := |heard| - 1;
      AskedFor(heard[..k]) + if Asked(Header(heard[k])).Some? then Asked(Header(heard[k])).value else 0.0
  }

  /** The client waits at least as long as it was asked to, and at most a minute
      each time. */
  lemma {:induction false} WaitsAsAsked<A>(heard: seq<Reply<A>>, random: nat -> Fraction)
    ensures 0.0 <= AskedFor(heard) <= Waits(heard, random) <= 60.0 * |heard| as real
  {
    if heard != [] {
      WaitsAsAsked(heard[..|heard| - 1], random);
    }
  }

  /** Every reply is what its fate shows; after the last fate the server's own. */
  ghost predicate AllShown<S(!new), K, Q, A(!new)>(app: App<S, Q, A>, request: Q, fates: seq<Fate<K, Q, A>>,
                                                   heard: seq<Reply<A>>)
    decreases |heard|
  {
    heard == [] || (Shows(app, request, fates, heard[0]) && AllShown(app, request, Later(fates), heard[1..]))
  }

  function LaterBy<K, Q, A>(fates: seq<Fate<K, Q, A>>, n: nat): seq<Fate<K, Q, A>> {
    if n == 0 then fates else LaterBy(Later(fates), n - 1)
  }

  lemma {:induction false} ShownSnoc<S(!new), K, Q, A(!new)>(app: App<S, Q, A>, request: Q, fates: seq<Fate<K, Q, A>>,
                                                             heard: seq<Reply<A>>, reply: Reply<A>)
    requires AllShown(app, request, fates, heard) && Shows(app, request, LaterBy(fates, |heard|), reply)
    ensures AllShown(app, request, fates, heard + [reply]) && LaterBy(fates, |heard| + 1) == Later(LaterBy(fates, |heard|))
    decreases |heard|
  {
    if heard == [] {
      assert (heard + [reply])[1..] == [];
    } else {
      ShownSnoc(app, request, Later(fates), heard[1..], reply);
      assert (heard + [reply])[1..] == heard[1..] + [reply];
    }
  }

  lemma {:induction false} LaterRunsOut<K, Q, A>(fates: seq<Fate<K, Q, A>>, n: nat)
    ensures |LaterBy(fates, n)| == Max(|fates| - n, 0)
  {
    if n > 0 {
      LaterRunsOut(Later(fates), n - 1);
    }
  }

  /** The application never gives the write an answer that the client retries. */
  ghost predicate Steady<S(!new), Q, A>(app: App<S, Q, A>, how: Reading<A>, request: Q) {
    forall s {:trigger app.route(s, request)} ::
      !Retryable(how, app.route(s, request).answer) && !NotJson(how, app.route(s, request).answer)
  }

  /** The replies so far, all of which call for another try, and the fates left. */
  ghost predicate Trail<S(!new), K, Q, A(!new)>(app: App<S, Q, A>, request: Q, how: Reading<A>,
                                                begin: seq<Fate<K, Q, A>>, heard: seq<Reply<A>>,
                                                fates: seq<Fate<K, Q, A>>) {
    && AllShown(app, request, begin, heard) && fates == LaterBy(begin, |heard|)
    && forall i :: 0 <= i < |heard| ==> Again(how, heard[i])
  }

  lemma TrailGrows<S(!new), K, Q, A(!new)>(app: App<S, Q, A>, request: Q, how: Reading<A>,
                                           begin: seq<Fate<K, Q, A>>, heard: seq<Reply<A>>,
                                           fates: seq<Fate<K, Q, A>>, reply: Reply<A>)
    requires Trail(app, request, how, begin, heard, fates) && Shows(app, request, fates, reply)
    ensures AllShown(app, request, begin, heard + [reply])
    ensures Again(how, reply) ==> Trail(app, request, how, begin, heard + [reply], Later(fates))
  {
    ShownSnoc(app, request, begin, heard, reply);
  }

  /** The write has had its one effect, with this answer. */
  ghost predicate Effected<S, K, Q, A>(s: Server<S, K, Q, A>, key: K, request: Q, answer: Answer<A>) {
    Effects(s.effects, key) == 1 && Effect(Some(key), request, answer) in s.effects
  }

  lemma SettledIsEffected<S, K, Q, A>(s: Server<S, K, Q, A>, key: K, request: Q, answer: Answer<A>)
    requires Ledger(s)
    ensures Effects(s.effects, key) <= 1
    ensures Settles(s, key, request, answer) && 200 <= answer.status < 300 ==> Effected(s, key, request, answer)
  {
    AtMostOne(s.effects, key);
  }

  /** One try of a write that has made some. */
  method Try<S(!new), K(==), Q(==, !new), A(!new)>(w: Wire<S, K, Q, A>, ghost init: S, how: Reading<A>, key: K,
                                                   request: Q, ghost begin: seq<Fate<K, Q, A>>,
                                                   ghost heard: seq<Reply<A>>)
    returns (reply: Reply<A>)
    requires Ready(w, init, how, key, request) && Trail(w.app, request, how, begin, heard, w.fates)
    modifies w
    ensures Ready(w, init, how, key, request) && w.requests == old(w.requests) + 1
    ensures Effects(w.server.effects, key) <= 1
    ensures AllShown(w.app, request, begin, heard + [reply])
    ensures Again(how, reply) ==> Trail(w.app, request, how, begin, heard + [reply], w.fates)
    ensures !Again(how, reply) || |begin| <= |heard| ==>
      reply.Got? && Settles(w.server, key, request, reply.answer)
    ensures reply.Got? && Settles(w.server, key, request, reply.answer) && 200 <= reply.answer.status < 300 ==>
      Effected(w.server, key, request, reply.answer)
  {
    ghost var fates := w.fates;
    LaterRunsOut(begin, |heard|);
    reply := Attempt(w, init, how, key, request);
    TrailGrows(w.app, request, how, begin, heard, fates, reply);
    AtMostOne(w.server.effects, key);
    if reply.Got? {
      SettledIsEffected(w.server, key, request, reply.answer);
    }
  }

  /** How a write's tries end: asked again exactly while a reply calls for it and
      a try is left. */
  ghost predicate Tried<S(!new), K, Q, A(!new)>(app: App<S, Q, A>, request: Q, how: Reading<A>,
                                                begin: seq<Fate<K, Q, A>>, heard: seq<Reply<A>>, tries: int) {
    && AllShown(app, request, begin, heard) && 1 <= |heard| <= tries
    && (forall i :: 0 <= i < |heard| - 1 ==> Again(how, heard[i]))
    && (Again(how, heard[|heard| - 1]) ==> |heard| == tries)
  }

  lemma TrailEnds<S(!new), K, Q, A(!new)>(app: App<S, Q, A>, request: Q, how: Reading<A>, begin: seq<Fate<K, Q, A>>,
                                          before: seq<Reply<A>>, reply: Reply<A>, tries: int)
    requires AllShown(app, request, begin, before + [reply])
    requires |before| < tries && (Again(how, reply) ==> |before| + 1 == tries)
    requires forall i :: 0 <= i < |before| ==> Again(how, before[i])
    ensures Tried(app, request, how, begin, before + [reply], tries) && (before + [reply])[..|before|] == before
  {
  }

  lemma GenuineIsFinal<S(!new), K, Q, A(!new)>(app: App<S, Q, A>, request: Q, how: Reading<A>,
                                               fates: seq<Fate<K, Q, A>>, reply: Reply<A>)
    requires Steady(app, how, request) && Shows(app, request, fates, reply) && Again(how, reply)
    requires forall f :: f in fates && f.seen.Genuine? ==> f.arrives
    ensures NextFaulty(fates)
  {
    var answer :| GivenBy(app, request, answer)
      && reply == if fates == [] then Got(answer, None) else Shown(fates[0], answer);
    var s :| app.route(s, request).answer == answer;
    assert fates != [] ==> fates[0] in fates;
  }

  /** When the application gives the write no answer that is retried, every reply
      that calls for another try used up a fault. */
  lemma {:induction false} FaultsUsed<S(!new), K, Q, A(!new)>(app: App<S, Q, A>, request: Q, how: Reading<A>,
                                                              fates: seq<Fate<K, Q, A>>, heard: seq<Reply<A>>)
    requires Steady(app, how, request) && AllShown(app, request, fates, heard)
    requires forall f :: f in fates && f.seen.Genuine? ==> f.arrives
    requires forall i :: 0 <= i < |heard| ==> Again(how, heard[i])
    ensures |heard| <= Faults(fates)
    decreases |heard|
  {
    if heard != [] {
      GenuineIsFinal(app, request, how, fates, heard[0]);
      assert forall i :: 0 <= i < |heard[1..]| ==> heard[1..][i] == heard[i + 1];
      FaultsUsed(app, request, how, Later(fates), heard[1..]);
    }
  }

  /** So with fewer faults than tries, the last reply is one that the client does
      not retry. */
  lemma FewFaults<S(!new), K, Q, A(!new)>(app: App<S, Q, A>, request: Q, how: Reading<A>, fates: seq<Fate<K, Q, A>>,
                                          heard: seq<Reply<A>>, tries: int)
    requires Tried(app, request, how, fates, heard, tries) && Steady(app, how, request) && Faults(fates) < tries
    requires forall f :: f in fates && f.seen.Genuine? ==> f.arrives
    ensures !Again(how, heard[|heard| - 1])
  {
    if Again(how, heard[|heard| - 1]) {
      FaultsUsed(app, request, how, fates, heard);
    }
  }

  /** The client's tries: again while the reply calls for it and a try is left. */
  method SendTries<S(!new), K(==), Q(==, !new), A(!new)>(w: Wire<S, K, Q, A>, ghost init: S, how: Reading<A>, key: K,
                                                         request: Q, maxRetries: int, random: nat -> Fraction)
    returns (reply: Reply<A>, waited: real, ghost before: seq<Reply<A>>)
    requires Ready(w, init, how, key, request)
    modifies w
    ensures Ready(w, init, how, key, request) && Effects(w.server.effects, key) <= 1
    ensures |before| + 1 == w.requests - old(w.requests) && waited == Waits(before, random)
    ensures Tried(w.app, request, how, old(w.fates), before + [reply], Max(maxRetries, 0) + 1)
    ensures !Again(how, reply) || |old(w.fates)| <= maxRetries ==>
      reply.Got? && Settles(w.server, key, request, reply.answer)
    ensures reply.Got? && Settles(w.server, key, request, reply.answer) && 200 <= reply.answer.status < 300 ==>
      Effected(w.server, key, request, reply.answer)
  {
    var attempt := 0;
    waited, before := 0.0, [];
    ghost var begin := w.fates;
    while true
      invariant Ready(w, init, how, key, request) && w.requests == old(w.requests) + attempt
      invariant 0 <= attempt <= Max(maxRetries, 0) && |before| == attempt
      invariant Trail(w.app, request, how, begin, before, w.fates) && waited == Waits(before, random)
      decreases maxRetries - attempt
    {
      reply := Try(w, init, how, key, request, begin, before);
      if attempt >= maxRetries || !Again(how, reply) {
        break;
      }
      waited := waited + RetryDelay(attempt, Header(reply), random(attempt));
      assert (before + [reply])[..attempt] == before;
      before := before + [reply];
      attempt := attempt + 1;
    }
    TrailEnds(w.app, request, how, begin, before, reply, Max(maxRetries, 0) + 1);
  }

  /** Send one write. Whatever the network does, it takes effect at most once, and
      an answer returned settles it, unless it is one the client would still
      retry. The client asks again exactly while a reply calls for it and a try is
      left, and waits after each as the reply says. With fewer fates than tries it
      ends with the server's own answer; so it does with fewer faults than tries,
      when the application gives the write no answer that is retried. */
  method Send<S(!new), K(==), Q(==, !new), A(!new)>(w: Wire<S, K, Q, A>, ghost init: S, how: Reading<A>, key: K,
                                                    request: Q, maxRetries: int, random: nat -> Fraction)
    returns (r: Outcome<A>, waited: real, ghost heard: seq<Reply<A>>)
    requires Ready(w, init, how, key, request)
    modifies w
    ensures Sound(w.app, init, w.server) && Effects(w.server.effects, key) <= 1
    ensures r.Returned? && !Retryable(how, r.answer) ==> Settles(w.server, key, request, r.answer)
    ensures r.Returned? && 200 <= r.answer.status < 300 ==> Effected(w.server, key, request, r.answer)
    ensures Tried(w.app, request, how, old(w.fates), heard, Max(maxRetries, 0) + 1)
    ensures |heard| == w.requests - old(w.requests)
    ensures r == Verdict(how, heard[|heard| - 1]) && waited == Waits(heard[..|heard| - 1], random)
    ensures |old(w.fates)| <= maxRetries ==> !r.NoAnswer? && Settles(w.server, key, request, r.answer)
    ensures Steady(w.app, how, request) && Faults(old(w.fates)) <= maxRetries ==>
      r.Returned? && Settles(w.server, key, request, r.answer)
  {
    ghost var begin := w.fates;
    var reply;
    ghost var before;
    reply, waited, before := SendTries(w, init, how, key, request, maxRetries, random);
    heard := before + [reply];
    assert heard[..|before|] == before;
    if Steady(w.app, how, request) && Faults(begin) <= maxRetries {
      FewFaults(w.app, request, how, begin, heard, Max(maxRetries, 0) + 1);
    }
    if reply.Lost? {
      r := NoAnswer;
    } else if NotJson(how, reply.answer) {
      r := Unreadable(reply.answer);
    } else {
      r := Returned(reply.answer);
    }
  }

  // ------------------------------------------------------- the seat runner's write

  /** The last try whose power of two is still a float. */
  const LAST_POWER: nat := 1023

  /** The backoff doubled per try is nothing one can sleep for: negative, not a
      number, or doubled too often. */
  predicate Sleepless(attempt: nat, backoff: Seconds) {
    attempt > LAST_POWER || match backoff
      case Number(v) => v < 0.0
      case Infinite(negative) => negative
      case NotANumber => true
  }

  /** What the server asked for, or the backoff doubled per try, at most a minute
      and never negative. A header or a configured backoff that is not a number
      goes through the code's bounds unchanged, as a negative backoff does, and
      sleeping for it raises. */
  function RetryWait(attempt: nat, backoff: Seconds, retryAfter: Option<Seconds>): (seconds: Option<real>)
    ensures seconds.None? <==> retryAfter == Some(NotANumber) || (retryAfter.None? && Sleepless(attempt, backoff))
    ensures seconds.Some? ==> 0.0 <= seconds.value <= 60.0
    ensures forall v :: retryAfter == Some(Number(v)) ==>
      seconds == Some(if v < 0.0 then 0.0 else if v > 60.0 then 60.0 else v)
    ensures forall n :: retryAfter == Some(Infinite(n)) ==> seconds == Some(if n then 0.0 else 60.0)
    ensures retryAfter.None? && backoff.Number? && backoff.value >= 0.0 && attempt <= LAST_POWER ==>
      seconds == Some(MinReal(Doubled(backoff.value, attempt), 60.0))
  {
    match retryAfter
    case Some(NotANumber) => None
    case Some(Number(v)) => Some(MinReal(if v >= 0.0 then v else 0.0, 60.0))
    case Some(Infinite(negative)) => Some(if negative then 0.0 else 60.0)
    case None =>
      if Sleepless(attempt, backoff) then None
      else if backoff.Infinite? then Some(60.0)
      else
        Some(MinReal(Doubled(backoff.value, attempt), 60.0))
  }

  datatype Written<A> = Raised | Unanswered | Answered(answer: Answer<A>)

  /** What the last reply makes of the write: no answer, one cut short and one that
      is not JSON are all the same to the runner. */
  function Read<A>(how: Reading<A>, reply: Reply<A>): Written<A> {
    if reply.Lost? || NotJson(how, reply.answer) then Unanswered else Answered(reply.answer)
  }

  function RunnerHeader<A>(how: Reading<A>, reply: Reply<A>): Option<Seconds> {
    if Read(how, reply).Answered? then reply.retryAfter else None
  }

  /** The runner's wait after the `k`th reply. */
  function RunnerWait<A>(how: Reading<A>, backoff: Seconds, k: nat, reply: Reply<A>): Option<real> {
    RetryWait(k, backoff, RunnerHeader(how, reply))
  }

  function RunnerWaits<A>(how: Reading<A>, backoff: Seconds, heard: seq<Reply<A>>): real {
    if heard == [] then 0.0
    else
      var k := |heard| - 1;
      var wait := RunnerWait(how, backoff, k, heard[k]);
      RunnerWaits(how, backoff, heard[..k]) + if wait.Some? then wait.value else 0.0
  }

  lemma {:induction false} RunnerWaitsBounded<A>(how: Reading<A>, backoff: Seconds, heard: seq<Reply<A>>)
    ensures 0.0 <= RunnerWaits(how, backoff, heard) <= 60.0 * |heard| as real
  {
    if heard != [] {
      RunnerWaitsBounded(how, backoff, heard[..|heard| - 1]);
    }
  }

  /** The waits after these replies could all be slept, and were. */
  ghost predicate Rested<A>(how: Reading<A>, backoff: Seconds, heard: seq<Reply<A>>, waited: real) {
    && (forall i :: 0 <= i < |heard| ==> RunnerWait(how, backoff, i, heard[i]).Some?)
    && waited == RunnerWaits(how, backoff, heard)
  }

  lemma RestedGrows<A>(how: Reading<A>, backoff: Seconds, heard: seq<Reply<A>>, waited: real, reply: Reply<A>,
                       wait: Option<real>)
    requires Rested(how, backoff, heard, waited) && wait == RunnerWait(how, backoff, |heard|, reply)
    ensures wait.Some? ==> Rested(how, backoff, heard + [reply], waited + wait.value)
  {
    assert (heard + [reply])[..|heard|] == heard;
  }

  /** The runner's tries: again while the reply calls for it, a try is left and
      the wait can be slept. */
  method WriteTries<S(!new), K(==), Q(==, !new), A(!new)>(w: Wire<S, K, Q, A>, ghost init: S, how: Reading<A>, key: K,
                                                          request: Q, attempts: nat, backoff: Seconds)
    returns (reply: Reply<A>, raised: bool, waited: real, ghost before: seq<Reply<A>>)
    requires Ready(w, init, how, key, request) && attempts >= 1
    modifies w
    ensures Ready(w, init, how, key, request) && Effects(w.server.effects, key) <= 1
    ensures |before| + 1 == w.requests - old(w.requests) && Rested(how, backoff, before, waited)
    ensures Tried(w.app, request, how, old(w.fates), before + [reply], if raised then |before| + 1 else attempts)
    ensures raised ==>
      Again(how, reply) && |before| + 1 < attempts && RunnerWait(how, backoff, |before|, reply).None?
    ensures !Again(how, reply) ==> Settles(w.server, key, request, reply.answer)
    ensures reply.Got? && Settles(w.server, key, request, reply.answer) && 200 <= reply.answer.status < 300 ==>
      Effected(w.server, key, request, reply.answer)
  {
    var attempt := 0;
    raised, waited, before := false, 0.0, [];
    ghost var begin := w.fates;
    while true
      invariant Ready(w, init, how, key, request) && w.requests == old(w.requests) + attempt
      invariant 0 <= attempt < attempts && |before| == attempt && !raised
      invariant Trail(w.app, request, how, begin, before, w.fates) && Rested(how, backoff, before, waited)
      decreases attempts - attempt
    {
      reply := Try(w, init, how, key, request, begin, before);
      if !Again(how, reply) || attempt + 1 >= attempts {
        break;
      }
      var wait := RetryWait(attempt, backoff, RunnerHeader(how, reply));
      RestedGrows(how, backoff, before, waited, reply, wait);
      if wait.None? {
        raised := true;
        break;
      }
      waited := waited + wait.value;
      before := before + [reply];
      attempt := attempt + 1;
    }
    TrailEnds(w.app, request, how, begin, before, reply, if raised then |before| + 1 else attempts);
  }

  /** Up to `attempts` tries of one write under one key. It settles the write as
      `Send` does, asks again exactly while a reply calls for it, a try is left and
      the wait for it can be slept, and raises exactly when it cannot. */
  method Write<S(!new), K(==), Q(==, !new), A(!new)>(w: Wire<S, K, Q, A>, ghost init: S, how: Reading<A>, key: K,
                                                     request: Q, attempts: nat, backoff: Seconds)
    returns (r: Written<A>, waited: real, ghost heard: seq<Reply<A>>)
    requires Ready(w, init, how, key, request)
    requires attempts >= 1
    modifies w
    ensures Sound(w.app, init, w.server) && Effects(w.server.effects, key) <= 1
    ensures r.Answered? && !Retryable(how, r.answer) ==> Settles(w.server, key, request, r.answer)
    ensures r.Answered? && 200 <= r.answer.status < 300 ==> Effected(w.server, key, request, r.answer)
    ensures |heard| == w.requests - old(w.requests)
    ensures Tried(w.app, request, how, old(w.fates), heard, if r.Raised? then |heard| else attempts)
    ensures var last := |heard| - 1;
      && Rested(how, backoff, heard[..last], waited)
      && (r.Raised? ==>
            Again(how, heard[last]) && |heard| < attempts && RunnerWait(how, backoff, last, heard[last]).None?)
      && (!r.Raised? ==> r == Read(how, heard[last]))
  {
    var reply, raised;
    ghost var before;
    reply, raised, waited, before := WriteTries(w, init, how, key, request, attempts, backoff);
    heard := before + [reply];
    assert heard[..|before|] == before;
    if raised {
      r := Raised;
    } else if reply.Got? && !NotJson(how, reply.answer) {
      r := Answered(reply.answer);
    } else {
      r := Unanswered;
    }
  }

  /** Whatever the client retries frees its key on the server, so that a retry is
      never answered with the failure it retries. What it does not retry of the
      answers that free a key is exactly: too early, a conflict other than a key
      in flight, and the server errors that are no passing ones. */
  lemma RetriedIsFreed<A>(how: Reading<A>, answer: Answer<A>)
    ensures Retryable(how, answer) ==> Frees(answer.status)
    ensures Frees(answer.status) && !Retryable(how, answer) <==>
      || answer.status == 425 || (answer.status == 409 && !how.inFlight(answer.body))
      || (answer.status >= 500 && answer.status !in {500, 502, 503, 504})
  {
  }

  /** What the caller can rely on: a success that is returned can be read, and only
      a success that cannot is called unreadable. */
  lemma VerdictTells<A>(how: Reading<A>, reply: Reply<A>)
    ensures var r := Verdict(how, reply);
      && (r.NoAnswer? <==> reply.Lost?)
      && (r.Returned? && 200 <= r.answer.status < 300 && how.jsonAnswer && how.garbled(r.answer.body) ==>
            r.answer.status == 204)
      && (r.Unreadable? ==>
            200 <= r.answer.status < 300 && r.answer.status != 204 && how.jsonAnswer && how.garbled(r.answer.body))
      && (!r.NoAnswer? ==> r.answer == reply.answer)
  {
  }
}
