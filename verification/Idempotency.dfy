/**
 The server's side of an Idempotency-Key: a write that carries one runs at most
 once per key, a retry with the same request gets the first answer back, and
 an answer that frees its key leaves the retry to run. The application behind
 it is any function of its state and the request.
 */
module Idempotency {
  import opened Basics

  datatype Answer<A> = Answer(status: int, body: A)

  datatype Routed<S, A> = Routed(state: S, answer: Answer<A>)

  /** An application, which of its requests write, and the body of its refusal
      of a key that comes back with another request. */
  datatype App<!S, !Q, A> = App(route: (S, Q) -> Routed<S, A>, writes: Q -> bool, reused: A)

  /** What a key holds: the request it came with and the answer it got. */
  datatype Kept<Q, A> = Kept(request: Q, answer: Answer<A>)

  /** A run of the application that did not free its key. */
  datatype Effect<K, Q, A> = Effect(key: Option<K>, request: Q, answer: Answer<A>)

  datatype Server<S, !K, Q, A> = Server(state: S, keys: map<K, Kept<Q, A>>, effects: seq<Effect<K, Q, A>>)

  datatype Served<S, !K, Q, A> = Served(server: Server<S, K, Q, A>, answer: Answer<A>)

  /** The answers that free a key: server errors and the "not now" ones. */
  predicate Frees(status: int) {
    status >= 500 || status in {408, 409, 425, 429}
  }

  function Serve<S, K, Q(==), A>(app: App<S, Q, A>, s: Server<S, K, Q, A>, request: Q, key: Option<K>)
    : Served<S, K, Q, A>
  {
    var held := if app.writes(request) then key else None;
    if held.Some? && held.value in s.keys then
      var kept := s.keys[held.value];
      Served(s, if kept.request == request then kept.answer else Answer(422, app.reused))
    else
      var run := app.route(s.state, request);
      var frees := Frees(run.answer.status);
      Served(Server(run.state,
                    if held.None? || frees then s.keys else s.keys[held.value := Kept(request, run.answer)],
                    if frees then s.effects else s.effects + [Effect(held, request, run.answer)]),
             run.answer)
  }

  // ---------------------------------------------------------------- the ledger

  /** An effect's key holds its request and its answer. */
  ghost predicate EffectsKept<K, Q, A>(keys: map<K, Kept<Q, A>>, effects: seq<Effect<K, Q, A>>) {
    forall i :: 0 <= i < |effects| ==>
      && !Frees(effects[i].answer.status)
      && (effects[i].key.Some? ==>
            effects[i].key.value in keys && keys[effects[i].key.value] == Kept(effects[i].request, effects[i].answer))
  }

  /** No key has two effects. */
  ghost predicate OncePerEffect<K, Q, A>(effects: seq<Effect<K, Q, A>>) {
    forall i, j :: 0 <= i < j < |effects| && effects[i].key.Some? ==> effects[i].key != effects[j].key
  }

  /** Every key held has its effect. */
  ghost predicate KeysMet<K, Q, A>(keys: map<K, Kept<Q, A>>, effects: seq<Effect<K, Q, A>>) {
    forall k :: k in keys ==> exists i :: 0 <= i < |effects| && effects[i].key == Some(k)
  }

  /** The keys and the effects tell the same story: one effect for each key. */
  ghost predicate Ledger<S, K, Q, A>(s: Server<S, K, Q, A>) {
    EffectsKept(s.keys, s.effects) && OncePerEffect(s.effects) && KeysMet(s.keys, s.effects)
  }

  function WithKey<K, Q, A>(keys: map<K, Kept<Q, A>>, e: Effect<K, Q, A>): map<K, Kept<Q, A>> {
    if e.key.None? then keys else keys[e.key.value := Kept(e.request, e.answer)]
  }

  lemma KeptAdds<K, Q, A>(keys: map<K, Kept<Q, A>>, effects: seq<Effect<K, Q, A>>, e: Effect<K, Q, A>)
    requires EffectsKept(keys, effects) && !Frees(e.answer.status) && (e.key.Some? ==> e.key.value !in keys)
    ensures EffectsKept(WithKey(keys, e), effects + [e])
  {
  }

  lemma OnceAdds<K, Q, A>(keys: map<K, Kept<Q, A>>, effects: seq<Effect<K, Q, A>>, e: Effect<K, Q, A>)
    requires EffectsKept(keys, effects) && OncePerEffect(effects) && (e.key.Some? ==> e.key.value !in keys)
    ensures OncePerEffect(effects + [e])
  {
  }

  lemma MetAdds<K, Q, A>(keys: map<K, Kept<Q, A>>, effects: seq<Effect<K, Q, A>>, e: Effect<K, Q, A>)
    requires KeysMet(keys, effects)
    ensures KeysMet(WithKey(keys, e), effects + [e])
  {
    var more := effects + [e];
    forall k | k in WithKey(keys, e) ensures exists i :: 0 <= i < |more| && more[i].key == Some(k) {
      if e.key == Some(k) {
        assert more[|effects|].key == Some(k);
      } else {
        var i :| 0 <= i < |effects| && effects[i].key == Some(k);
        assert more[i].key == Some(k);
      }
    }
  }

  lemma ServeKeepsLedger<S, K, Q, A>(app: App<S, Q, A>, s: Server<S, K, Q, A>, request: Q, key: Option<K>)
    requires Ledger(s)
    ensures Ledger(Serve(app, s, request, key).server)
  {
    var held := if app.writes(request) then key else None;
    if held.None? || held.value !in s.keys {
      var run := app.route(s.state, request);
      if !Frees(run.answer.status) {
        var e := Effect(held, request, run.answer);
        KeptAdds(s.keys, s.effects, e);
        OnceAdds(s.keys, s.effects, e);
        MetAdds(s.keys, s.effects, e);
      }
    }
  }

  /** A request as it arrives, whoever sent it, for the first time or again. */
  datatype Arrival<K, Q> = Arrival(request: Q, key: Option<K>)

  function ServeAll<S, K, Q(==), A>(app: App<S, Q, A>, s: Server<S, K, Q, A>, arrivals: seq<Arrival<K, Q>>)
    : Server<S, K, Q, A>
    decreases |arrivals|
  {
    if arrivals == [] then s
    else ServeAll(app, Serve(app, s, arrivals[0].request, arrivals[0].key).server, arrivals[1..])
  }

  /** An answer that frees its key changed nothing. */
  ghost predicate Honest<S(!new), Q(!new), A>(app: App<S, Q, A>) {
    forall s, q {:trigger app.route(s, q)} :: Frees(app.route(s, q).answer.status) ==> app.route(s, q).state == s
  }

  /** The state after `effects`, each applied once, in order. */
  function Applied<S, K, Q, A>(app: App<S, Q, A>, init: S, effects: seq<Effect<K, Q, A>>): S {
    if effects == [] then init
    else app.route(Applied(app, init, effects[..|effects| - 1]), effects[|effects| - 1].request).state
  }

  /** The state is the effects applied once each, and each was answered as the
      application answers it there. */
  ghost predicate Explained<S, K, Q, A>(app: App<S, Q, A>, init: S, s: Server<S, K, Q, A>) {
    && s.state == Applied(app, init, s.effects)
    && forall i :: 0 <= i < |s.effects| ==>
         s.effects[i].answer == app.route(Applied(app, init, s.effects[..i]), s.effects[i].request).answer
  }

  lemma ServeExplained<S(!new), K, Q(!new), A>(app: App<S, Q, A>, init: S, s: Server<S, K, Q, A>, request: Q,
                                               key: Option<K>)
    requires Honest(app) && Explained(app, init, s)
    ensures Explained(app, init, Serve(app, s, request, key).server)
  {
    var t := Serve(app, s, request, key).server;
    if t.effects != s.effects {
      var n := |s.effects|;
      assert t.effects[..n] == s.effects;
      forall i | 0 <= i < n
        ensures t.effects[i].answer == app.route(Applied(app, init, t.effects[..i]), t.effects[i].request).answer
      {
        assert t.effects[..i] == s.effects[..i];
      }
    }
  }

  /** What every server reached from an empty one satisfies. */
  ghost predicate Sound<S, K, Q, A>(app: App<S, Q, A>, init: S, s: Server<S, K, Q, A>) {
    Ledger(s) && Explained(app, init, s)
  }

  /** Whatever arrives, in whatever order and however often: each key has at
      most one effect, and the state is exactly the effects, once each. */
  lemma {:induction false} OncePerKey<S(!new), K, Q(!new), A>(app: App<S, Q, A>, init: S, s: Server<S, K, Q, A>,
                                                             arrivals: seq<Arrival<K, Q>>)
    requires Honest(app) && Sound(app, init, s)
    ensures Sound(app, init, ServeAll(app, s, arrivals))
    ensures s.effects <= ServeAll(app, s, arrivals).effects
    decreases |arrivals|
  {
    if arrivals != [] {
      ServeKeepsLedger(app, s, arrivals[0].request, arrivals[0].key);
      ServeExplained(app, init, s, arrivals[0].request, arrivals[0].key);
      OncePerKey(app, init, Serve(app, s, arrivals[0].request, arrivals[0].key).server, arrivals[1..]);
    }
  }

  function Empty<S, K, Q, A>(init: S): Server<S, K, Q, A> {
    Server(init, map[], [])
  }

  lemma EmptyIsSound<S, K, Q, A>(app: App<S, Q, A>, init: S)
    ensures Sound(app, init, Empty<S, K, Q, A>(init))
  {
  }

  // ------------------------------------------------------------ one key's view

  /** `key` is `request`'s: nobody else sent anything else under it. */
  ghost predicate Owns<S, K, Q, A>(s: Server<S, K, Q, A>, key: K, request: Q) {
    key in s.keys ==> s.keys[key].request == request
  }

  ghost predicate OnlyCopies<K, Q>(arrivals: seq<Arrival<K, Q>>, key: K, request: Q) {
    forall a :: a in arrivals && a.key == Some(key) ==> a.request == request
  }

  lemma {:induction false} CopiesKeepOwner<S, K, Q, A>(app: App<S, Q, A>, s: Server<S, K, Q, A>,
                                                      arrivals: seq<Arrival<K, Q>>, key: K, request: Q)
    requires Owns(s, key, request) && OnlyCopies(arrivals, key, request)
    ensures Owns(ServeAll(app, s, arrivals), key, request)
    decreases |arrivals|
  {
    if arrivals != [] {
      assert arrivals[0] in arrivals;
      CopiesKeepOwner(app, Serve(app, s, arrivals[0].request, arrivals[0].key).server, arrivals[1..], key, request);
    }
  }

  /** `answer` settles the request: it is the answer of the key's one effect,
      or it frees the key and there was none. */
  ghost predicate Settles<S, K, Q, A>(s: Server<S, K, Q, A>, key: K, request: Q, answer: Answer<A>) {
    if Frees(answer.status) then forall e :: e in s.effects ==> e.key != Some(key)
    else Effect(Some(key), request, answer) in s.effects
  }

  /** The key has run another request. */
  ghost predicate Taken<S, K, Q, A>(s: Server<S, K, Q, A>, key: K, request: Q) {
    exists e :: e in s.effects && e.key == Some(key) && e.request != request
  }

  lemma KeyHasEffect<S, K, Q, A>(s: Server<S, K, Q, A>, key: K)
    requires Ledger(s)
    ensures key in s.keys ==> Effect(Some(key), s.keys[key].request, s.keys[key].answer) in s.effects
    ensures forall e :: e in s.effects && e.key == Some(key) ==> key in s.keys && s.keys[key] == Kept(e.request, e.answer)
  {
    if key in s.keys {
      var i :| 0 <= i < |s.effects| && s.effects[i].key == Some(key);
      assert s.effects[i] == Effect(Some(key), s.keys[key].request, s.keys[key].answer);
    }
  }

  /** A keyed write that comes to any sound server: refused, and nothing changes,
      when its key has run another request; otherwise its answer settles it. So no
      request is answered for another one. */
  lemma ServeAnswers<S, K, Q, A>(app: App<S, Q, A>, s: Server<S, K, Q, A>, request: Q, key: K)
    requires Ledger(s) && app.writes(request)
    ensures var served := Serve(app, s, request, Some(key));
      && (Taken(s, key, request) ==> served == Served(s, Answer(422, app.reused)))
      && (!Taken(s, key, request) ==> Settles(served.server, key, request, served.answer))
  {
    KeyHasEffect(s, key);
    var served := Serve(app, s, request, Some(key));
    if key !in s.keys && !Frees(served.answer.status) {
      assert served.server.effects[|s.effects|] == Effect(Some(key), request, served.answer);
    }
  }

  /** A write that has had its effect gets the answer of it again and changes
      nothing; one whose key has had none runs. */
  lemma ServeReplays<S, K, Q, A>(app: App<S, Q, A>, s: Server<S, K, Q, A>, request: Q, key: K)
    requires Ledger(s) && app.writes(request)
    ensures var served := Serve(app, s, request, Some(key));
      && (forall a :: Effect(Some(key), request, a) in s.effects ==> served == Served(s, a))
      && ((forall e :: e in s.effects ==> e.key != Some(key)) ==>
            var run := app.route(s.state, request); served.server.state == run.state && served.answer == run.answer)
  {
    KeyHasEffect(s, key);
    forall a | Effect(Some(key), request, a) in s.effects ensures Serve(app, s, request, Some(key)) == Served(s, a) {
      assert Effect(Some(key), request, a) in s.effects;
    }
  }

  /** Without a key, and for what does not write, every request runs, and no key
      is spent. */
  lemma ServeRuns<S, K, Q, A>(app: App<S, Q, A>, s: Server<S, K, Q, A>, request: Q, key: Option<K>)
    requires key.None? || !app.writes(request)
    ensures var served := Serve(app, s, request, key);
      var run := app.route(s.state, request);
      && served.server.state == run.state && served.answer == run.answer && served.server.keys == s.keys
      && served.server.effects == s.effects + if Frees(run.answer.status) then [] else [Effect(None, request, run.answer)]
  {
  }

  /** The application itself never answers as the refusal of a reused key does. */
  ghost predicate Distinct<S(!new), Q(!new), A>(app: App<S, Q, A>) {
    forall s, q {:trigger app.route(s, q)} :: app.route(s, q).answer != Answer(422, app.reused)
  }

  /** Then the refusal tells: a keyed write gets it exactly when its key has run
      another request. */
  lemma RefusedExactly<S(!new), K, Q(!new), A>(app: App<S, Q, A>, init: S, s: Server<S, K, Q, A>, request: Q, key: K)
    requires Sound(app, init, s) && Honest(app) && Distinct(app) && app.writes(request)
    ensures Serve(app, s, request, Some(key)).answer == Answer(422, app.reused) <==> Taken(s, key, request)
  {
    ServeAnswers(app, s, request, key);
    var served := Serve(app, s, request, Some(key));
    ServeExplained(app, init, s, request, Some(key));
    if !Taken(s, key, request) && served.answer.status == 422 {
      var t := served.server;
      var i :| 0 <= i < |t.effects| && t.effects[i] == Effect(Some(key), request, served.answer);
      assert t.effects[i].answer == app.route(Applied(app, init, t.effects[..i]), t.effects[i].request).answer;
    }
  }

  /** A genuine answer settles the request. */
  lemma ServeSettles<S, K, Q, A>(app: App<S, Q, A>, s: Server<S, K, Q, A>, request: Q, key: K)
    requires Ledger(s) && Owns(s, key, request) && app.writes(request)
    ensures var served := Serve(app, s, request, Some(key));
      Owns(served.server, key, request) && Settles(served.server, key, request, served.answer)
  {
    KeyHasEffect(s, key);
    ServeAnswers(app, s, request, key);
  }

  /** The answer is one that the application gives to that request. */
  ghost predicate GivenBy<S(!new), Q, A>(app: App<S, Q, A>, request: Q, answer: Answer<A>) {
    exists s :: app.route(s, request).answer == answer
  }

  lemma ServeGives<S(!new), K, Q, A>(app: App<S, Q, A>, init: S, s: Server<S, K, Q, A>, request: Q, key: K)
    requires Sound(app, init, s) && Owns(s, key, request) && app.writes(request)
    ensures GivenBy(app, request, Serve(app, s, request, Some(key)).answer)
  {
    if key in s.keys {
      KeyHasEffect(s, key);
      var i :| 0 <= i < |s.effects| && s.effects[i] == Effect(Some(key), request, s.keys[key].answer);
      assert app.route(Applied(app, init, s.effects[..i]), request).answer == s.keys[key].answer;
    } else {
      assert app.route(s.state, request).answer == Serve(app, s, request, Some(key)).answer;
    }
  }

  /** How many effects a key has had. */
  function Effects<K(==), Q, A>(effects: seq<Effect<K, Q, A>>, key: K): nat {
    if effects == [] then 0
    else Effects(effects[..|effects| - 1], key) + if effects[|effects| - 1].key == Some(key) then 1 else 0
  }

  lemma {:induction false} NoEffects<K, Q, A>(effects: seq<Effect<K, Q, A>>, key: K)
    requires forall e :: e in effects ==> e.key != Some(key)
    ensures Effects(effects, key) == 0
  {
    if effects != [] {
      assert effects[|effects| - 1] in effects;
      NoEffects(effects[..|effects| - 1], key);
    }
  }

  lemma {:induction false} AtMostOne<K, Q, A>(effects: seq<Effect<K, Q, A>>, key: K)
    requires forall i, j :: 0 <= i < j < |effects| && effects[i].key.Some? ==> effects[i].key != effects[j].key
    ensures Effects(effects, key) <= 1
    ensures (exists e :: e in effects && e.key == Some(key)) ==> Effects(effects, key) == 1
  {
    if effects != [] {
      var n := |effects| - 1;
      if effects[n].key == Some(key) {
        NoEffects(effects[..n], key);
      } else {
        AtMostOne(effects[..n], key);
      }
    }
  }

  /** Every run of the server, from any state on, leaves the effects applied once
      each and nothing else. */
  ghost predicate AlwaysExplained<S(!new), K(!new), Q(!new), A>(app: App<S, Q, A>) {
    forall init: S, arrivals: seq<Arrival<K, Q>> :: Explained(app, init, ServeAll(app, Empty<S, K, Q, A>(init), arrivals))
  }

  /** A request whose answer frees its key leaves no effect, so what it changed
      is unexplained. */
  lemma OneArrival<S, K, Q, A>(app: App<S, Q, A>, init: S, request: Q)
    requires Frees(app.route(init, request).answer.status)
    ensures ServeAll(app, Empty<S, K, Q, A>(init), [Arrival(request, None)])
         == Server(app.route(init, request).state, map[], [])
  {
    assert [Arrival<K, Q>.Arrival(request, None)][1..] == [];
  }

  /** The server keeps its promise exactly for the applications that change
      nothing when they answer so as to free a key. */
  lemma HonestExactly<S(!new), K(!new), Q(!new), A>(app: App<S, Q, A>)
    ensures AlwaysExplained<S, K, Q, A>(app) <==> Honest(app)
  {
    if Honest(app) {
      forall init: S, arrivals: seq<Arrival<K, Q>>
        ensures Explained(app, init, ServeAll(app, Empty<S, K, Q, A>(init), arrivals))
      {
        EmptyIsSound<S, K, Q, A>(app, init);
        OncePerKey(app, init, Empty<S, K, Q, A>(init), arrivals);
      }
    }
    if AlwaysExplained<S, K, Q, A>(app) {
      forall init: S, q: Q | Frees(app.route(init, q).answer.status) ensures app.route(init, q).state == init {
        OneArrival<S, K, Q, A>(app, init, q);
        assert Explained(app, init, ServeAll(app, Empty<S, K, Q, A>(init), [Arrival(q, None)]));
      }
    }
  }

  /** How it breaks: a write whose answer frees its key runs again when its
      request comes again, on top of whatever the first run did. */
  lemma FreedKeyRunsAgain<S, K, Q, A>(app: App<S, Q, A>, s: Server<S, K, Q, A>, request: Q, key: K)
    requires app.writes(request) && key !in s.keys
    requires Frees(app.route(s.state, request).answer.status)
    ensures ServeAll(app, s, [Arrival(request, Some(key)), Arrival(request, Some(key))]).state
         == app.route(app.route(s.state, request).state, request).state
  {
    var a := Arrival(request, Some(key));
    var once := Serve(app, s, request, Some(key)).server;
    assert [a, a][1..] == [a] && [a][1..] == [];
    assert ServeAll(app, s, [a, a]) == ServeAll(app, once, [a]);
    assert ServeAll(app, once, [a]) == ServeAll(app, Serve(app, once, request, Some(key)).server, []);
  }
}
