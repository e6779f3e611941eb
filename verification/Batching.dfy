/**
 Splitting resource updates into notification payloads under a byte limit. The
 split is greedy, and no split that keeps the order does with fewer payloads.
 */
module Batching {
  import opened Basics

  const PAYLOAD_LIMIT: nat := 7990

  datatype ResourceUpdate = ResourceUpdate(workspace: nat, uri: string)

  type Batch = seq<ResourceUpdate>

  /** The JSON text of one update. */
  type Encoder = ResourceUpdate -> string

  function Items(json: Encoder, batch: Batch): string {
    if batch == [] then ""
    else Items(json, batch[..|batch| - 1]) + (if |batch| > 1 then "," else "") + json(batch[|batch| - 1])
  }

  /** The JSON text of a batch. */
  function Payload(json: Encoder, batch: Batch): string {
    "[" + Items(json, batch) + "]"
  }

  predicate Fits(json: Encoder, limit: nat, batch: Batch) {
    |Payload(json, batch)| <= limit
  }

  function Flatten(batches: seq<Batch>): Batch {
    if batches == [] then [] else batches[0] + Flatten(batches[1..])
  }

  /** A split that keeps the order: no empty batch, and only a lone update may
      exceed the limit. */
  ghost predicate IsSplit(json: Encoder, limit: nat, batches: seq<Batch>, updates: Batch) {
    && Flatten(batches) == updates
    && forall b :: b in batches ==> b != [] && (|b| >= 2 ==> Fits(json, limit, b))
  }

  // ------------------------------------------------------------- the greedy split

  /** How far the first batch extends once it holds `n` updates. */
  function Extend(json: Encoder, limit: nat, s: Batch, n: nat): (m: nat)
    requires 1 <= n <= |s|
    ensures n <= m <= |s|
    decreases |s| - n
  {
    if n < |s| && Fits(json, limit, s[..n + 1]) then Extend(json, limit, s, n + 1) else n
  }

  function Greedy(json: Encoder, limit: nat, s: Batch): (batches: seq<Batch>)
    decreases |s|
  {
    if s == [] then []
    else
      var n := Extend(json, limit, s, 1);
      [s[..n]] + Greedy(json, limit, s[n..])
  }

  lemma PayloadGrows(json: Encoder, s: Batch, n: nat)
    requires n < |s|
    ensures |Payload(json, s[..n + 1])| == |Payload(json, s[..n])| + |json(s[n])| + if n == 0 then 0 else 1
  {
    assert s[..n + 1][..n] == s[..n];
  }

  lemma {:induction false} ExtendFits(json: Encoder, limit: nat, s: Batch, n: nat)
    requires 1 <= n <= |s| && (n >= 2 ==> Fits(json, limit, s[..n]))
    ensures var m := Extend(json, limit, s, n); m >= 2 ==> Fits(json, limit, s[..m])
    decreases |s| - n
  {
    if n < |s| && Fits(json, limit, s[..n + 1]) {
      ExtendFits(json, limit, s, n + 1);
    }
  }

  lemma {:induction false} GreedyIsSplit(json: Encoder, limit: nat, s: Batch)
    ensures IsSplit(json, limit, Greedy(json, limit, s), s)
    decreases |s|
  {
    if s != [] {
      var n := Extend(json, limit, s, 1);
      ExtendFits(json, limit, s, 1);
      GreedyIsSplit(json, limit, s[n..]);
      assert s == s[..n] + s[n..];
    }
  }

  // ----------------------------------------------------------------- optimality

  lemma {:induction false} PrefixShorter(json: Encoder, s: Batch, m: nat, n: nat)
    requires m <= n <= |s|
    ensures |Payload(json, s[..m])| <= |Payload(json, s[..n])|
    decreases n - m
  {
    if m < n {
      PayloadGrows(json, s, n - 1);
      PrefixShorter(json, s, m, n - 1);
    }
  }

  lemma {:induction false} SuffixShorter(json: Encoder, s: Batch)
    requires s != []
    ensures |Items(json, s[1..])| <= |Items(json, s)|
  {
    if |s| > 1 {
      var init := s[..|s| - 1];
      SuffixShorter(json, init);
      assert s[1..][..|s[1..]| - 1] == init[1..];
    }
  }

  lemma {:induction false} TailFits(json: Encoder, limit: nat, s: Batch, k: nat)
    requires k <= |s| && Fits(json, limit, s)
    ensures Fits(json, limit, s[k..])
    decreases k
  {
    if k == 0 {
      assert s[0..] == s;
    } else {
      SuffixShorter(json, s);
      TailFits(json, limit, s[1..], k - 1);
      assert s[1..][k - 1..] == s[k..];
    }
  }

  /** The greedy batch reaches at least as far as any batch that fits. */
  lemma {:induction false} ExtendReaches(json: Encoder, limit: nat, s: Batch, n: nat, m: nat)
    requires 1 <= n <= |s| && 1 <= m <= |s| && (m >= 2 ==> Fits(json, limit, s[..m]))
    ensures m <= Extend(json, limit, s, n)
    decreases |s| - n
  {
    if n < m {
      PrefixShorter(json, s, n + 1, m);
      ExtendReaches(json, limit, s, n + 1, m);
    }
  }

  /** Taking the first batch off a split leaves a split of the rest. */
  lemma RestIsSplit(json: Encoder, limit: nat, batches: seq<Batch>, s: Batch)
    requires IsSplit(json, limit, batches, s) && batches != []
    ensures batches[0] != [] && (|batches[0]| >= 2 ==> Fits(json, limit, batches[0]))
    ensures IsSplit(json, limit, batches[1..], Flatten(batches[1..])) && s == batches[0] + Flatten(batches[1..])
  {
    assert batches[0] in batches && forall b :: b in batches[1..] ==> b in batches;
  }

  /** From inside a batch that fits, greedy gets to its end or further. */
  lemma GreedyPasses(json: Encoder, limit: nat, first: Batch, rest: Batch, k: nat)
    requires k < |first| && (|first| >= 2 ==> Fits(json, limit, first))
    ensures |first| - k <= Extend(json, limit, (first + rest)[k..], 1)
  {
    var end := (first + rest)[k..];
    var m := |first| - k;
    if m >= 2 {
      TailFits(json, limit, first, k);
      assert first[k..] == end[..m];
    }
    ExtendReaches(json, limit, end, 1, m);
  }

  lemma TailsAgree(first: Batch, rest: Batch, k: nat, n: nat)
    requires k < |first| && |first| - k <= n <= |first| + |rest| - k
    ensures rest[n - (|first| - k)..] == (first + rest)[k..][n..]
  {
  }

  /** From beyond the first batch, greed is at work on the others. */
  lemma GreedyBeyond(json: Encoder, limit: nat, first: Batch, rest: Batch, k: nat)
    requires |first| <= k <= |first| + |rest|
    ensures Greedy(json, limit, (first + rest)[k..]) == Greedy(json, limit, rest[k - |first|..])
  {
    assert (first + rest)[k..] == rest[k - |first|..];
  }

  /** From within the first batch, one greedy batch goes past it. */
  lemma GreedyWithin(json: Encoder, limit: nat, first: Batch, rest: Batch, k: nat) returns (j: nat)
    requires k < |first| && (|first| >= 2 ==> Fits(json, limit, first))
    ensures j <= |rest| && |Greedy(json, limit, (first + rest)[k..])| == 1 + |Greedy(json, limit, rest[j..])|
  {
    var end := (first + rest)[k..];
    GreedyPasses(json, limit, first, rest, k);
    var n := Extend(json, limit, end, 1);
    TailsAgree(first, rest, k, n);
    j := n - (|first| - k);
  }

  /** Any split of `s` is at least as long as the greedy split of any end of
      `s`: where the split's first batch ends, greedy has got at least as far. */
  lemma {:induction false} GreedyStaysAhead(json: Encoder, limit: nat, batches: seq<Batch>, s: Batch, k: nat)
    requires IsSplit(json, limit, batches, s) && k <= |s|
    ensures |Greedy(json, limit, s[k..])| <= |batches|
    decreases |batches|
  {
    if k < |s| {
      var first, rest := batches[0], Flatten(batches[1..]);
      RestIsSplit(json, limit, batches, s);
      if k >= |first| {
        GreedyBeyond(json, limit, first, rest, k);
        GreedyStaysAhead(json, limit, batches[1..], rest, k - |first|);
      } else {
        var j := GreedyWithin(json, limit, first, rest, k);
        GreedyStaysAhead(json, limit, batches[1..], rest, j);
      }
    }
  }

  /** No split uses fewer batches than the greedy one. */
  lemma GreedyIsOptimal(json: Encoder, limit: nat, updates: Batch, other: seq<Batch>)
    requires IsSplit(json, limit, other, updates)
    ensures |Greedy(json, limit, updates)| <= |other|
  {
    GreedyStaysAhead(json, limit, other, updates, 0);
    assert updates[0..] == updates;
  }

  // ------------------------------------------------------------------ the method

  /** With `batches` closed and `current` being filled, greedy goes on with
      `rest`, and has not yet had to close `current`. */
  ghost predicate Filling(json: Encoder, limit: nat, all: seq<Batch>, batches: seq<Batch>, current: Batch, rest: Batch) {
    && all == batches + Greedy(json, limit, current + rest)
    && (current != [] ==>
          Extend(json, limit, current + rest, 1) == Extend(json, limit, current + rest, |current|))
  }

  lemma PayloadAppends(json: Encoder, current: Batch, update: ResourceUpdate)
    ensures |Payload(json, current + [update])| == |Payload(json, current)| + |json(update)| + if current != [] then 1 else 0
  {
    var s := current + [update];
    assert s[..|current|] == current && s[..|current| + 1] == s;
    PayloadGrows(json, s, |current|);
  }

  /** The next update fits into the batch being filled, or starts it. */
  lemma FillOn(json: Encoder, limit: nat, all: seq<Batch>, batches: seq<Batch>, current: Batch, rest: Batch)
    requires rest != [] && Filling(json, limit, all, batches, current, rest)
    requires current == [] || Fits(json, limit, current + [rest[0]])
    ensures Filling(json, limit, all, batches, current + [rest[0]], rest[1..])
  {
    var s := current + rest;
    assert s == (current + [rest[0]]) + rest[1..];
    assert s[..|current| + 1] == current + [rest[0]];
  }

  /** The next update does not fit: the batch is closed. */
  lemma FillClose(json: Encoder, limit: nat, all: seq<Batch>, batches: seq<Batch>, current: Batch, rest: Batch)
    requires current != [] && Filling(json, limit, all, batches, current, rest)
    requires rest == [] || !Fits(json, limit, current + [rest[0]])
    ensures Filling(json, limit, all, batches + [current], [], rest)
  {
    var s := current + rest;
    assert s[..|current|] == current && s[|current|..] == rest;
    assert rest != [] ==> s[..|current| + 1] == current + [rest[0]];
    assert Greedy(json, limit, s) == [current] + Greedy(json, limit, rest);
    Appended(batches, [current], Greedy(json, limit, rest));
    Appended(rest, [], []);
  }

  /** Split `updates` into batches whose text stays within `limit`; a lone
      update over the limit still goes out on its own. */
  method ChunkWithinLimit(json: Encoder, updates: Batch, limit: nat) returns (batches: seq<Batch>)
    ensures batches == Greedy(json, limit, updates)
  {
    batches := [];
    var current: Batch := [];
    var currentLen := 2;
    ghost var all := Greedy(json, limit, updates);
    assert [] + updates[0..] == updates;
    for i := 0 to |updates|
      invariant currentLen == |Payload(json, current)|
      invariant Filling(json, limit, all, batches, current, updates[i..])
    {
      var update := updates[i];
      var item := json(update);
      var extra := |item| + if current != [] then 1 else 0;
      PayloadAppends(json, current, update);
      if current != [] && currentLen + extra > limit {
        FillClose(json, limit, all, batches, current, updates[i..]);
        batches := batches + [current];
        current, currentLen := [], 2;
        PayloadAppends(json, current, update);
      }
      FillOn(json, limit, all, batches, current, updates[i..]);
      currentLen := currentLen + |item| + if current != [] then 1 else 0;
      current := current + [update];
      assert updates[i..][1..] == updates[i + 1..];
    }
    if current != [] {
      FillClose(json, limit, all, batches, current, []);
      batches := batches + [current];
    }
    Appended(batches, [], []);
  }

  // ------------------------------------------------------------------ publishing

  lemma AloneFits(json: Encoder, limit: nat, batch: Batch, i: nat)
    requires i < |batch| && Fits(json, limit, batch)
    ensures Fits(json, limit, [batch[i]])
  {
    TailFits(json, limit, batch, i);
    PrefixShorter(json, batch[i..], 1, |batch| - i);
    assert batch[i..][..1] == [batch[i]] && batch[i..][..|batch| - i] == batch[i..];
  }

  lemma {:induction false} FlattenConcat(a: seq<Batch>, b: seq<Batch>)
    ensures Flatten(a + b) == Flatten(a) + Flatten(b)
  {
    if a == [] {
      assert a + b == b;
    } else {
      FlattenConcat(a[1..], b);
      assert (a + b)[1..] == a[1..] + b;
      Appended(a[0], Flatten(a[1..]), Flatten(b));
    }
  }

  lemma {:induction false} AllAloneFit(json: Encoder, limit: nat, batches: seq<Batch>)
    requires forall b :: b in batches ==> Fits(json, limit, b)
    ensures forall u :: u in Flatten(batches) ==> Fits(json, limit, [u])
  {
    if batches != [] {
      assert batches[0] in batches;
      AllAloneFit(json, limit, batches[1..]);
      forall u | u in batches[0] ensures Fits(json, limit, [u]) {
        var i :| 0 <= i < |batches[0]| && batches[0][i] == u;
        AloneFits(json, limit, batches[0], i);
      }
    }
  }

  datatype Published = Sent(payloads: seq<Batch>) | PayloadTooLarge(sent: seq<Batch>, size: nat)

  /** What a publish did: everything went out and every update fits a payload of
      its own, or exactly the updates before the first one that does not. */
  ghost predicate Reports(json: Encoder, updates: Batch, r: Published) {
    match r
    case Sent(payloads) =>
      && Flatten(payloads) == updates
      && forall u :: u in updates ==> Fits(json, PAYLOAD_LIMIT, [u])
    case PayloadTooLarge(sent, size) =>
      var n := |Flatten(sent)|;
      && n < |updates| && Flatten(sent) == updates[..n]
      && (forall u :: u in updates[..n] ==> Fits(json, PAYLOAD_LIMIT, [u]))
      && !Fits(json, PAYLOAD_LIMIT, [updates[n]])
      && size == |Payload(json, [updates[n]])|
  }

  lemma StoppedAt(json: Encoder, updates: Batch, batches: seq<Batch>, k: nat)
    requires IsSplit(json, PAYLOAD_LIMIT, batches, updates) && k < |batches|
    requires forall b :: b in batches[..k] ==> Fits(json, PAYLOAD_LIMIT, b)
    requires !Fits(json, PAYLOAD_LIMIT, batches[k])
    ensures Reports(json, updates, PayloadTooLarge(batches[..k], |Payload(json, batches[k])|))
  {
    var sent := Flatten(batches[..k]);
    AllAloneFit(json, PAYLOAD_LIMIT, batches[..k]);
    assert batches == batches[..k] + batches[k..];
    FlattenConcat(batches[..k], batches[k..]);
    assert batches[k] in batches;
    assert Flatten(batches[k..]) == batches[k] + Flatten(batches[k..][1..]);
    assert updates[..|sent|] == sent && updates[|sent|] == batches[k][0];
    assert batches[k] == [updates[|sent|]];
  }

  /** Notify each batch in turn; a payload over the limit stops the publish. */
  method Publish(json: Encoder, updates: Batch) returns (r: Published)
    ensures Reports(json, updates, r)
    ensures forall b :: b in (if r.Sent? then r.payloads else r.sent) ==> Fits(json, PAYLOAD_LIMIT, b)
    ensures if r.Sent? then r.payloads == Greedy(json, PAYLOAD_LIMIT, updates)
            else r.sent <= Greedy(json, PAYLOAD_LIMIT, updates)
  {
    if updates == [] {
      return Sent([]);
    }
    var batches := ChunkWithinLimit(json, updates, PAYLOAD_LIMIT);
    GreedyIsSplit(json, PAYLOAD_LIMIT, updates);
    for i := 0 to |batches|
      invariant forall b :: b in batches[..i] ==> Fits(json, PAYLOAD_LIMIT, b)
    {
      var payload := Payload(json, batches[i]);
      if |payload| > PAYLOAD_LIMIT {
        StoppedAt(json, updates, batches, i);
        return PayloadTooLarge(batches[..i], |payload|);
      }
      assert batches[..i + 1] == batches[..i] + [batches[i]];
    }
    assert batches[..|batches|] == batches;
    AllAloneFit(json, PAYLOAD_LIMIT, batches);
    r := Sent(batches);
  }
}
