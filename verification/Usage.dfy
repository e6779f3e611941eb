/**
 Token usage into the ledger's tiers, in 64-bit integers: checked sums, the
 shapes that count cached tokens inside the prompt total, and the price of a
 report rounded up to a whole micro-dollar.
 */
module Usage {
  import opened Basics

  const MAX_INT64: int := 0x7FFF_FFFF_FFFF_FFFF
  const MILLION: int := 1_000_000

  /** What a usage object's non-negative integer field holds. */
  type Count = x: int | 0 <= x <= MAX_INT64

  datatype UsageError =
    | Overflow
    | SmallerThanItsTiers
    | NotACount
    | BadDetail
    | Negative

  datatype TokenUsage = TokenUsage(input: int, output: int, cacheRead: int, cacheWrite5m: int, cacheWrite1h: int)

  datatype PriceSnapshot = PriceSnapshot(input: int, output: int, cacheRead: int, cacheWrite5m: int, cacheWrite1h: int)

  // ------------------------------------------------------------- checked sums

  function Sum(parts: seq<int>): int {
    if parts == [] then 0 else Sum(parts[..|parts| - 1]) + parts[|parts| - 1]
  }

  lemma SumPair(a: int, b: int)
    ensures Sum([a, b]) == a + b
  {
    assert [a, b][..1] == [a] && [a][..0] == [];
    assert Sum([a]) == Sum([]) + a;
  }

  lemma {:induction false} SumPrefix(parts: seq<Count>, k: nat)
    requires k <= |parts|
    ensures 0 <= Sum(parts[..k]) <= Sum(parts)
    decreases |parts| - k
  {
    if k < |parts| {
      SumPrefix(parts, k + 1);
      assert parts[..k + 1][..k] == parts[..k];
      SumNonNegative(parts[..k]);
    } else {
      assert parts[..k] == parts;
      SumNonNegative(parts);
    }
  }

  lemma {:induction false} SumNonNegative(parts: seq<Count>)
    ensures Sum(parts) >= 0
  {
    if parts != [] {
      SumNonNegative(parts[..|parts| - 1]);
    }
  }

  /** The sum, or a refusal exactly when it leaves 64 bits. The test in the loop
      never leaves 64 bits itself. */
  method Add(parts: seq<Count>) returns (r: Result<Count, UsageError>)
    ensures r == if Sum(parts) <= MAX_INT64 then Ok(Sum(parts)) else Err(Overflow)
  {
    var total: Count := 0;
    for i := 0 to |parts|
      invariant total == Sum(parts[..i])
    {
      assert parts[..i + 1][..i] == parts[..i];
      SumPrefix(parts, i + 1);
      if parts[i] > MAX_INT64 - total {
        return Err(Overflow);
      }
      total := total + parts[i];
    }
    assert parts[..|parts|] == parts;
    r := Ok(total);
  }

  /** The part of a total that its cached tiers leave. */
  method Uncached(total: Count, cached: seq<Count>) returns (r: Result<Count, UsageError>)
    ensures r.Ok? <==> Sum(cached) <= total
    ensures r.Ok? ==> r.value + Sum(cached) == total
    ensures r.Err? ==> r.error == if Sum(cached) > MAX_INT64 then Overflow else SmallerThanItsTiers
  {
    SumNonNegative(cached);
    var c := Add(cached);
    if c.Err? {
      return Err(c.error);
    }
    if total < c.value {
      return Err(SmallerThanItsTiers);
    }
    r := Ok(total - c.value);
  }

  /** The shape of providers that count cached tokens inside the prompt total;
      each field is `None` when it is not a non-negative integer. */
  method InclusiveShape(total: Option<Count>, cached: Option<Count>, written: Option<Count>, out: Option<Count>,
                        reasoning: Option<Count>, reasoningIsExtra: bool)
    returns (r: Result<TokenUsage, UsageError>)
    ensures r.Ok? <==>
      && total.Some? && cached.Some? && written.Some? && out.Some? && (reasoningIsExtra ==> reasoning.Some?)
      && cached.value + written.value <= total.value
      && out.value + (if reasoningIsExtra then reasoning.value else 0) <= MAX_INT64
    ensures r.Ok? ==>
      && r.value.input + r.value.cacheRead + r.value.cacheWrite5m == total.value
      && r.value.cacheRead == cached.value && r.value.cacheWrite5m == written.value && r.value.cacheWrite1h == 0
      && r.value.output == out.value + if reasoningIsExtra then reasoning.value else 0
  {
    if total.None? || cached.None? || written.None? || out.None? {
      return Err(NotACount);
    }
    var extra: Count := 0;
    if reasoningIsExtra {
      if reasoning.None? {
        return Err(NotACount);
      }
      extra := reasoning.value;
    }
    SumPair(cached.value, written.value);
    SumPair(out.value, extra);
    var input := Uncached(total.value, [cached.value, written.value]);
    if input.Err? {
      return Err(input.error);
    }
    var output := Add([out.value, extra]);
    if output.Err? {
      return Err(output.error);
    }
    r := Ok(TokenUsage(input.value, output.value, cached.value, written.value, 0));
  }

  // ---------------------------------------------------------- writes by lifetime

  datatype Ttl = FiveMinutes | OneHour | OtherTtl

  datatype Detail = NotAnObject | Entry(ttl: Ttl, tokens: Option<Count>)

  ghost predicate Readable(d: Detail) {
    d.Entry? && d.tokens.Some? && d.ttl != OtherTtl
  }

  ghost function Written(details: seq<Detail>, ttl: Ttl): int
    requires forall i :: 0 <= i < |details| ==> Readable(details[i])
  {
    if details == [] then 0
    else
      var last := details[|details| - 1];
      assert Readable(last);
      Written(details[..|details| - 1], ttl) + if last.ttl == ttl then last.tokens.value else 0
  }

  lemma {:induction false} WrittenPrefix(details: seq<Detail>, ttl: Ttl, k: nat)
    requires k <= |details| && forall i :: 0 <= i < |details| ==> Readable(details[i])
    ensures 0 <= Written(details[..k], ttl) <= Written(details, ttl)
    decreases |details| + (|details| - k)
  {
    if k < |details| {
      WrittenPrefix(details, ttl, k + 1);
      assert details[..k + 1][..k] == details[..k];
      if k > 0 {
        WrittenPrefix(details[..k], ttl, k);
      }
      assert details[..k][..k] == details[..k];
    } else if k > 0 {
      assert details[..k] == details;
      WrittenPrefix(details[..k - 1], ttl, k - 1);
      assert details[..k - 1][..k - 1] == details[..k - 1];
    }
  }

  /** Cache writes by lifetime: each tier is the sum of its own entries, refused
      exactly when an entry is not readable or a tier leaves 64 bits. */
  method BedrockDetails(details: seq<Detail>) returns (r: Result<(Count, Count), UsageError>)
    ensures r.Ok? <==>
      && (forall i :: 0 <= i < |details| ==> Readable(details[i]))
      && Written(details, FiveMinutes) <= MAX_INT64 && Written(details, OneHour) <= MAX_INT64
    ensures r.Ok? ==> r.value == (Written(details, FiveMinutes), Written(details, OneHour))
  {
    var five: Count, hour: Count := 0, 0;
    for k := 0 to |details|
      invariant forall i :: 0 <= i < k ==> Readable(details[i])
      invariant five == Written(details[..k], FiveMinutes) && hour == Written(details[..k], OneHour)
    {
      var d := details[k];
      if d.NotAnObject? {
        return Err(BadDetail);
      }
      if d.tokens.None? {
        return Err(NotACount);
      }
      if d.ttl == OtherTtl {
        return Err(BadDetail);
      }
      assert details[..k + 1][..k] == details[..k];
      if forall i :: 0 <= i < |details| ==> Readable(details[i]) {
        WrittenPrefix(details, d.ttl, k + 1);
      }
      var tier := if d.ttl == FiveMinutes then five else hour;
      SumPair(tier, d.tokens.value);
      var sum := Add([tier, d.tokens.value]);
      if sum.Err? {
        return Err(sum.error);
      }
      if d.ttl == FiveMinutes {
        five := sum.value;
      } else {
        hour := sum.value;
      }
    }
    assert details[..|details|] == details;
    r := Ok((five, hour));
  }

  // -------------------------------------------------------------------- the price

  function Pairs(t: TokenUsage, p: PriceSnapshot): seq<(int, int)> {
    [(t.input, p.input), (t.output, p.output), (t.cacheRead, p.cacheRead),
     (t.cacheWrite5m, p.cacheWrite5m), (t.cacheWrite1h, p.cacheWrite1h)]
  }

  /** Tokens times rate, in millionths of a micro-dollar. */
  function Raw(t: TokenUsage, p: PriceSnapshot): int {
    t.input * p.input + t.output * p.output + t.cacheRead * p.cacheRead
    + t.cacheWrite5m * p.cacheWrite5m + t.cacheWrite1h * p.cacheWrite1h
  }

  predicate NonNegative(t: TokenUsage, p: PriceSnapshot) {
    && t.input >= 0 && t.output >= 0 && t.cacheRead >= 0 && t.cacheWrite5m >= 0 && t.cacheWrite1h >= 0
    && p.input >= 0 && p.output >= 0 && p.cacheRead >= 0 && p.cacheWrite5m >= 0 && p.cacheWrite1h >= 0
  }

  /** The least whole number of micro-dollars that covers `raw`. */
  ghost predicate IsCeiling(raw: int, micros: int) {
    (micros - 1) * MILLION < raw <= micros * MILLION
  }

  function PairSum(pairs: seq<(int, int)>): int {
    if pairs == [] then 0
    else PairSum(pairs[..|pairs| - 1]) + pairs[|pairs| - 1].0 * pairs[|pairs| - 1].1
  }

  lemma PairSumIsRaw(t: TokenUsage, p: PriceSnapshot)
    ensures PairSum(Pairs(t, p)) == Raw(t, p)
  {
    var s := Pairs(t, p);
    assert s[..4] == s[..5][..4] && s[..5] == s;
    assert s[..4][..3] == s[..3] && s[..3][..2] == s[..2] && s[..2][..1] == s[..1] && s[..1][..0] == [];
    assert PairSum(s[..1]) == t.input * p.input;
    assert PairSum(s[..2]) == PairSum(s[..1]) + t.output * p.output;
    assert PairSum(s[..3]) == PairSum(s[..2]) + t.cacheRead * p.cacheRead;
    assert PairSum(s[..4]) == PairSum(s[..3]) + t.cacheWrite5m * p.cacheWrite5m;
  }

  /** The price of a report: the exact ceiling, refused exactly when a count or
      rate is negative or the price leaves 64 bits. */
  method USDMicros(t: TokenUsage, p: PriceSnapshot) returns (r: Result<int, UsageError>)
    ensures r.Ok? ==> IsCeiling(Raw(t, p), r.value) && 0 <= r.value <= MAX_INT64
    ensures r == Err(Negative) <==> !NonNegative(t, p)
    ensures r == Err(Overflow) <==> NonNegative(t, p) && Raw(t, p) > MAX_INT64 * MILLION
    ensures r.Ok? <==> NonNegative(t, p) && Raw(t, p) <= MAX_INT64 * MILLION
  {
    var pairs := Pairs(t, p);
    var sum := 0;
    for i := 0 to |pairs|
      invariant sum == PairSum(pairs[..i]) && sum >= 0
      invariant forall j :: 0 <= j < i ==> pairs[j].0 >= 0 && pairs[j].1 >= 0
    {
      if pairs[i].0 < 0 || pairs[i].1 < 0 {
        return Err(Negative);
      }
      assert pairs[..i + 1][..i] == pairs[..i];
      ProductNonNegative(pairs[i].0, pairs[i].1);
      sum := sum + pairs[i].0 * pairs[i].1;
    }
    assert pairs[..|pairs|] == pairs;
    PairSumIsRaw(t, p);
    assert t.input == pairs[0].0 && t.output == pairs[1].0 && t.cacheRead == pairs[2].0;
    assert t.cacheWrite5m == pairs[3].0 && t.cacheWrite1h == pairs[4].0;
    assert NonNegative(t, p);
    var micros := (sum + 999_999) / MILLION;
    if micros > MAX_INT64 {
      return Err(Overflow);
    }
    r := Ok(micros);
  }

  lemma ProductNonNegative(a: int, b: int)
    requires a >= 0 && b >= 0
    ensures a * b >= 0
  {
  }

  // ------------------------------------------------ billing apart and together

  function Plus(a: TokenUsage, b: TokenUsage): TokenUsage {
    TokenUsage(a.input + b.input, a.output + b.output, a.cacheRead + b.cacheRead,
               a.cacheWrite5m + b.cacheWrite5m, a.cacheWrite1h + b.cacheWrite1h)
  }

  function Total(reports: seq<TokenUsage>): TokenUsage {
    if reports == [] then TokenUsage(0, 0, 0, 0, 0)
    else Plus(Total(reports[..|reports| - 1]), reports[|reports| - 1])
  }

  lemma RawDistributes(a: TokenUsage, b: TokenUsage, p: PriceSnapshot)
    ensures Raw(Plus(a, b), p) == Raw(a, p) + Raw(b, p)
  {
    Distributes(a.input, b.input, p.input);
    Distributes(a.output, b.output, p.output);
    Distributes(a.cacheRead, b.cacheRead, p.cacheRead);
    Distributes(a.cacheWrite5m, b.cacheWrite5m, p.cacheWrite5m);
    Distributes(a.cacheWrite1h, b.cacheWrite1h, p.cacheWrite1h);
  }

  /** Each tier is billed at its own rate. */
  lemma RatesApply(n: int, p: PriceSnapshot)
    ensures Raw(TokenUsage(n, 0, 0, 0, 0), p) == n * p.input
    ensures Raw(TokenUsage(0, n, 0, 0, 0), p) == n * p.output
    ensures Raw(TokenUsage(0, 0, n, 0, 0), p) == n * p.cacheRead
    ensures Raw(TokenUsage(0, 0, 0, n, 0), p) == n * p.cacheWrite5m
    ensures Raw(TokenUsage(0, 0, 0, 0, n), p) == n * p.cacheWrite1h
  {
  }

  lemma Distributes(a: int, b: int, c: int)
    ensures (a + b) * c == a * c + b * c
  {
  }

  /** Whatever the reports, billing them one by one instead of together costs no
      less, and at most one micro-dollar more for each report after the first. */
  lemma {:induction false} BilledApart(reports: seq<TokenUsage>, p: PriceSnapshot, bills: seq<int>, together: int)
    requires |reports| == |bills| >= 1
    requires forall i :: 0 <= i < |reports| ==> IsCeiling(Raw(reports[i], p), bills[i])
    requires IsCeiling(Raw(Total(reports), p), together)
    ensures 0 <= Sum(bills) - together <= |reports| - 1
  {
    ApartBounds(reports, p, bills);
  }

  lemma {:induction false} ApartBounds(reports: seq<TokenUsage>, p: PriceSnapshot, bills: seq<int>)
    requires |reports| == |bills|
    requires forall i :: 0 <= i < |reports| ==> IsCeiling(Raw(reports[i], p), bills[i])
    ensures Raw(Total(reports), p) <= Sum(bills) * MILLION <= Raw(Total(reports), p) + |reports| * (MILLION - 1)
  {
    if reports != [] {
      var k := |reports| - 1;
      ApartBounds(reports[..k], p, bills[..k]);
      RawDistributes(Total(reports[..k]), reports[k], p);
    }
  }

  function Copies<T>(x: T, n: nat): seq<T> {
    seq(n, _ => x)
  }

  const MITE := TokenUsage(1, 0, 0, 0, 0)
  const UNIT_PRICE := PriceSnapshot(1, 0, 0, 0, 0)

  lemma OneCovers(raw: int)
    requires 1 <= raw <= MILLION
    ensures IsCeiling(raw, 1)
  {
  }

  lemma RawOfMites(n: nat)
    ensures Raw(TokenUsage(n, 0, 0, 0, 0), UNIT_PRICE) == n
  {
  }

  /** The bound is reached: `n` reports of one millionth each, up to a million
      of them, cost 1 micro-dollar together and 1 each apart, `n - 1` more. */
  lemma {:induction false} BoundIsReached(n: nat)
    requires 1 <= n <= MILLION
    ensures var reports, bills := Copies(MITE, n), Copies(1, n);
      && |reports| == |bills| == n
      && (forall i :: 0 <= i < n ==> IsCeiling(Raw(reports[i], UNIT_PRICE), bills[i]))
      && IsCeiling(Raw(Total(reports), UNIT_PRICE), 1)
      && Sum(bills) - 1 == n - 1
  {
    MitesTogether(n);
    forall i | 0 <= i < n ensures IsCeiling(Raw(Copies(MITE, n)[i], UNIT_PRICE), Copies(1, n)[i]) {
      MiteApart();
    }
  }

  lemma MitesTogether(n: nat)
    requires 1 <= n <= MILLION
    ensures IsCeiling(Raw(Total(Copies(MITE, n)), UNIT_PRICE), 1) && Sum(Copies(1, n)) == n
  {
    OnesAddUp(n);
    RawOfMites(n);
    OneCovers(n);
  }

  lemma MiteApart()
    ensures IsCeiling(Raw(MITE, UNIT_PRICE), 1)
  {
    RawOfMites(1);
    OneCovers(1);
  }

  lemma {:induction false} OnesAddUp(n: nat)
    ensures Total(Copies(MITE, n)) == TokenUsage(n, 0, 0, 0, 0)
    ensures Sum(Copies(1, n)) == n
  {
    if n > 0 {
      OnesAddUp(n - 1);
      assert Copies(MITE, n)[..n - 1] == Copies(MITE, n - 1);
      assert Copies(1, n)[..n - 1] == Copies(1, n - 1);
    }
  }
}
