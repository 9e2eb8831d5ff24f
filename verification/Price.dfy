/**
 The fiat price oracle (src/localwallet/chain/price.py): floor conversions and the degrade ladder.

 Rates and amounts are exact reals; clock readings, the display currency and the feed's answers are inputs of
 each call.
 */
module Price {
  import opened Basics

  datatype Currency = Usd | Eur | Gbp | Cad | Chf | Aud | Jpy

  const SATS_PER_BTC := 100000000.0
  const MAX_STALE_AGE := 86400.0
  const MAX_FIAT_PER_BTC := 1000000000.0

  function MinorPerUnit(c: Currency): (m: real)
    ensures c.Jpy? ==> m == 1.0
    ensures c in {Usd, Eur, Gbp, Cad, Chf, Aud} ==> m == 100.0
  {
    if c.Jpy? then 1.0 else 100.0
  }

  datatype Rate = Rate(perBtc: real, fetchedAt: real, currency: Currency, stale: bool)

  predicate UsableRate(r: Rate) {
    0.0 < r.perBtc <= MAX_FIAT_PER_BTC
  }

  // ---------------------------------------------------------------- conversions

  /** Satoshis to whole minor units, floored. */
  function SatsToMinor(sats: nat, r: Rate): int {
    (sats as real * r.perBtc * MinorPerUnit(r.currency) / SATS_PER_BTC).Floor
  }

  /** An amount in major units to whole satoshis, floored. */
  function MajorToSats(major: real, r: Rate): int
    requires UsableRate(r)
  {
    (major * SATS_PER_BTC / r.perBtc).Floor
  }

  /** The largest whole number of minor units that the satoshis are worth: of yen, or of hundredths otherwise. */
  lemma MinorIsTheFloor(sats: nat, r: Rate, n: int)
    ensures var worth := sats as real * r.perBtc * (if r.currency.Jpy? then 1.0 else 100.0);
            SatsToMinor(sats, r) == n <==> n as real * 100000000.0 <= worth < n as real * 100000000.0 + 100000000.0
  {
    var worth := sats as real * r.perBtc * (if r.currency.Jpy? then 1.0 else 100.0);
    var q := worth / SATS_PER_BTC;
    assert q * 100000000.0 == worth;
  }

  /** The largest whole number of satoshis that the amount buys. */
  lemma SatsAreTheFloor(major: real, r: Rate, n: int)
    requires UsableRate(r)
    ensures MajorToSats(major, r) == n <==>
              n as real * r.perBtc <= major * 100000000.0 < n as real * r.perBtc + r.perBtc
  {
    QuotientTimes(major * SATS_PER_BTC, r.perBtc);
    QuotientFloor(major * SATS_PER_BTC / r.perBtc, major * SATS_PER_BTC, r.perBtc, n);
  }

  /** The floor of a quotient, without the division. */
  lemma QuotientFloor(q: real, x: real, k: real, n: int)
    requires k > 0.0 && q * k == x
    ensures q.Floor == n <==> n as real * k <= x < n as real * k + k
  {
    OneStep(q, x, k, n as real);
    FloorIs(q, n);
  }

  lemma FloorIs(q: real, n: int)
    ensures q.Floor == n <==> n as real <= q < n as real + 1.0
  {
  }

  lemma OneStep(q: real, x: real, k: real, low: real)
    requires k > 0.0 && q * k == x
    ensures low <= q < low + 1.0 <==> low * k <= x < low * k + k
  {
    var high := low + 1.0;
    Distributes(low, k);
    ScaledOrder(low, q, k, low * k, x);
    ScaledOrder(q, high, k, x, low * k + k);
  }

  /** Order between two reals is order between their products with a positive one. */
  lemma ScaledOrder(x: real, y: real, k: real, xk: real, yk: real)
    requires k > 0.0 && x * k == xk && y * k == yk
    ensures x <= y <==> xk <= yk
    ensures x < y <==> xk < yk
  {
    KeepsOrder(x, y, k);
  }

  lemma Distributes(low: real, k: real)
    ensures (low + 1.0) * k == low * k + k
  {
  }

  lemma QuotientTimes(x: real, k: real)
    requires k > 0.0
    ensures x / k * k == x
  {
  }

  /** Multiplying by a positive real keeps order, both ways. */
  lemma KeepsOrder(x: real, y: real, k: real)
    requires k > 0.0
    ensures x <= y <==> x * k <= y * k
    ensures x < y <==> x * k < y * k
  {
    assert (y - x) * k == y * k - x * k;
    if x < y {
      PositiveProduct(y - x, k);
    } else if x > y {
      PositiveProduct(x - y, k);
      assert (x - y) * k == x * k - y * k;
    }
  }

  lemma FloorSplits(x: real, y: real)
    ensures x.Floor + y.Floor <= (x + y).Floor <= x.Floor + y.Floor + 1
  {
  }

  lemma ProductNonNegative(x: real, y: real)
    requires x >= 0.0 && y >= 0.0
    ensures x * y >= 0.0
  {
  }

  lemma MinorIsLinear(a: nat, b: nat, r: Rate)
    ensures var m := MinorPerUnit(r.currency);
            (a + b) as real * r.perBtc * m / SATS_PER_BTC ==
            a as real * r.perBtc * m / SATS_PER_BTC + b as real * r.perBtc * m / SATS_PER_BTC
  {
    assert (a + b) as real * r.perBtc == a as real * r.perBtc + b as real * r.perBtc;
  }

  /** Splitting an amount loses at most one minor unit, and never gains; so the conversion is monotone. */
  lemma MinorIsSuperadditive(a: nat, b: nat, r: Rate)
    requires UsableRate(r)
    ensures SatsToMinor(a, r) + SatsToMinor(b, r) <= SatsToMinor(a + b, r) <= SatsToMinor(a, r) + SatsToMinor(b, r) + 1
    ensures SatsToMinor(a, r) <= SatsToMinor(a + b, r)
    ensures SatsToMinor(a, r) >= 0
  {
    var m := MinorPerUnit(r.currency);
    MinorIsLinear(a, b, r);
    FloorSplits(a as real * r.perBtc * m / SATS_PER_BTC, b as real * r.perBtc * m / SATS_PER_BTC);
    MinorNonNegative(a, r);
    MinorNonNegative(b, r);
  }

  lemma MinorNonNegative(a: nat, r: Rate)
    requires UsableRate(r)
    ensures SatsToMinor(a, r) >= 0
  {
    ProductNonNegative(a as real, r.perBtc);
  }

  /** x / k < y / k + d / k from x < y + d, and back: division by a positive real keeps order. */
  lemma DivideKeepsOrder(x: real, y: real, k: real)
    requires k > 0.0
    ensures x <= y ==> x / k <= y / k
    ensures x < y ==> x / k < y / k
  {
    var d := y / k - x / k;
    assert d * k == y - x;
    if x < y {
      PositiveFactor(d, k);
    }
    if x == y {
      assert x / k == y / k;
    }
  }

  lemma PositiveFactor(d: real, k: real)
    requires k > 0.0 && d * k > 0.0
    ensures d > 0.0
  {
  }

  /** Scaled to satoshis, a floored amount lies within one minor unit below the exact one. */
  lemma FloorInSats(sats: real, minor: real, k: real)
    requires k > 0.0
    requires minor <= sats * k / SATS_PER_BTC < minor + 1.0
    ensures sats - SATS_PER_BTC / k < minor * SATS_PER_BTC / k <= sats
  {
    DivideKeepsOrder(minor * SATS_PER_BTC, sats * k, k);
    DivideKeepsOrder(sats * k, (minor + 1.0) * SATS_PER_BTC, k);
    assert sats * k / k == sats;
    SumQuotient(minor * SATS_PER_BTC, SATS_PER_BTC, k);
    assert (minor + 1.0) * SATS_PER_BTC == minor * SATS_PER_BTC + SATS_PER_BTC;
  }

  /**
   Satoshis to minor units and back: never more than one started with, and less than one minor unit's worth of
   satoshis, plus one, is lost.
   */
  lemma ConversionRoundTrip(sats: nat, r: Rate)
    requires UsableRate(r)
    ensures var m := MinorPerUnit(r.currency);
            var back := MajorToSats(SatsToMinor(sats, r) as real / m, r);
            sats as real - SATS_PER_BTC / (r.perBtc * m) - 1.0 < back as real <= sats as real
  {
    var m := MinorPerUnit(r.currency);
    var k := r.perBtc * m;
    PositiveProduct(r.perBtc, m);
    var minor := SatsToMinor(sats, r) as real;
    assert sats as real * r.perBtc * m == sats as real * k;
    FloorInSats(sats as real, minor, k);
    NestedQuotient(minor, r.perBtc, m);
  }

  lemma PositiveProduct(x: real, y: real)
    requires x > 0.0 && y > 0.0
    ensures x * y > 0.0
  {
  }

  lemma SumQuotient(x: real, y: real, k: real)
    requires k > 0.0
    ensures (x + y) / k == x / k + y / k
  {
    assert (x / k + y / k) * k == x + y;
  }

  lemma NestedQuotient(minor: real, p: real, m: real)
    requires p > 0.0 && m > 0.0
    requires p * m > 0.0
    ensures minor / m * SATS_PER_BTC / p == minor * SATS_PER_BTC / (p * m)
  {
    var left := minor / m * SATS_PER_BTC / p;
    assert left * p == minor / m * SATS_PER_BTC;
    assert minor / m * m == minor;
    assert left * (p * m) == left * p * m;
    assert left * p * m == minor / m * SATS_PER_BTC * m;
    assert minor / m * SATS_PER_BTC * m == minor / m * m * SATS_PER_BTC;
    assert left * (p * m) == minor * SATS_PER_BTC;
  }

  // ---------------------------------------------------------------- the feed

  datatype Quote = Missing | NotANumber | NonFinite | Amount(value: real)

  /** One answer of the price endpoint: a transport or HTTP failure, a non-object, or an object of quotes. */
  datatype Answer = FetchFailed | NotAnObject | Quotes(quotes: map<Currency, Quote>)

  function ParseRate(a: Answer, c: Currency, at: real): (r: Option<Rate>)
    ensures r.Some? ==> UsableRate(r.value) && r.value.currency == c && r.value.fetchedAt == at && !r.value.stale
    ensures r.Some? <==>
              a.Quotes? && c in a.quotes && a.quotes[c].Amount? && 0.0 < a.quotes[c].value <= MAX_FIAT_PER_BTC
    ensures r.Some? ==> r.value.perBtc == a.quotes[c].value
  {
    if a.Quotes? && c in a.quotes && a.quotes[c].Amount? && 0.0 < a.quotes[c].value <= MAX_FIAT_PER_BTC then
      Some(Rate(a.quotes[c].value, at, c, false))
    else None
  }

  // ---------------------------------------------------------------- the ladder

  /** A call's surroundings: the currency read in it, its two clock readings, and what a fetch would answer. */
  datatype World = World(currency: Currency, now: real, later: real, answer: Answer)

  function FreshRate(cache: Option<Rate>, ttl: real, w: World): (r: (Option<Rate>, Option<Rate>)) {
    var same := cache.Some? && cache.value.currency == w.currency;
    if same && w.now - cache.value.fetchedAt < ttl then (cache, cache)
    else
      var fetched := ParseRate(w.answer, w.currency, w.later);
      if fetched.Some? then (fetched, fetched)
      else if same && w.later - cache.value.fetchedAt <= MAX_STALE_AGE then (cache, Some(cache.value.(stale := true)))
      else (cache, None)
  }

  function StaleOkRate(cache: Option<Rate>, w: World): (Option<Rate>, Option<Rate>) {
    if cache.Some? && cache.value.currency == w.currency then (cache, cache)
    else
      var fetched := ParseRate(w.answer, w.currency, w.later);
      if fetched.Some? then (fetched, fetched) else (cache, None)
  }

  /** Turned off by configuration, or no price to be had. */
  datatype Refusal = Disabled | Unavailable

  function Served(answer: (Option<Rate>, Option<Rate>)): (Option<Rate>, Result<Rate, Refusal>) {
    (answer.0, if answer.1.Some? then Success(answer.1.value) else Failure(Unavailable))
  }

  class PriceOracle {
    var cache: Option<Rate>
    const ttl: real
    const enabled: bool
    const supportsPrice: bool

    constructor (ttl: real, enabled: bool, supportsPrice: bool)
      requires ttl > 0.0
      ensures cache == None && this.ttl == ttl && this.enabled == enabled && this.supportsPrice == supportsPrice
    {
      this.ttl, this.enabled, this.supportsPrice := ttl, enabled, supportsPrice;
      cache := None;
    }

    method Fresh(w: World) returns (r: Result<Rate, Refusal>, ghost fetches: nat)
      modifies this
      ensures !enabled ==> r == Failure(Disabled) && cache == old(cache) && fetches == 0
      ensures enabled && !supportsPrice ==> r == Failure(Unavailable) && cache == old(cache) && fetches == 0
      ensures enabled && supportsPrice ==> (cache, r) == Served(FreshRate(old(cache), ttl, w))
      ensures fetches <= 1 && (fetches == 0 ==> cache == old(cache))
    {
      fetches := 0;
      if !enabled {
        return Failure(Disabled), 0;
      }
      if !supportsPrice {
        return Failure(Unavailable), 0;
      }
      var cached := cache;
      var same := cached.Some? && cached.value.currency == w.currency;
      if same && w.now - cached.value.fetchedAt < ttl {
        return Success(cached.value), 0;
      }
      fetches := 1;
      var rate := ParseRate(w.answer, w.currency, w.later);
      if rate.None? {
        if same && w.later - cached.value.fetchedAt <= MAX_STALE_AGE {
          return Success(cached.value.(stale := true)), 1;
        }
        return Failure(Unavailable), 1;
      }
      cache := rate;
      r := Success(rate.value);
    }

    method StaleOk(w: World) returns (r: Result<Rate, Refusal>)
      modifies this
      ensures !enabled ==> r == Failure(Disabled) && cache == old(cache)
      ensures enabled && !supportsPrice ==> r == Failure(Unavailable) && cache == old(cache)
      ensures enabled && supportsPrice ==> (cache, r) == Served(StaleOkRate(old(cache), w))
    {
      if !enabled {
        return Failure(Disabled);
      }
      if !supportsPrice {
        return Failure(Unavailable);
      }
      if cache.Some? && cache.value.currency == w.currency {
        return Success(cache.value);
      }
      var rate := ParseRate(w.answer, w.currency, w.later);
      if rate.None? {
        return Failure(Unavailable);
      }
      cache := rate;
      r := Success(rate.value);
    }

    method Invalidate()
      modifies this
      ensures cache == None
    {
      cache := None;
    }
  }

  // ---------------------------------------------------------------- all runs

  datatype Call = CallFresh(w: World) | CallStaleOk(w: World) | CallInvalidate

  function StepCall(cache: Option<Rate>, ttl: real, c: Call): (Option<Rate>, Option<Rate>) {
    match c
    case CallFresh(w) => FreshRate(cache, ttl, w)
    case CallStaleOk(w) => StaleOkRate(cache, w)
    case CallInvalidate => (None, None)
  }

  function CacheAfter(ttl: real, calls: seq<Call>): Option<Rate> {
    if calls == [] then None
    else StepCall(CacheAfter(ttl, calls[..|calls| - 1]), ttl, calls[|calls| - 1]).0
  }

  /** The rate is one the feed quoted, in that currency, to one of these calls, at the time it carries. */
  predicate QuotedIn(r: Rate, calls: seq<Call>) {
    exists i :: 0 <= i < |calls| && !calls[i].CallInvalidate? && QuotedBy(r, calls[i].w)
  }

  predicate QuotedBy(r: Rate, w: World) {
    r.currency == w.currency && r.fetchedAt == w.later &&
    ParseRate(w.answer, w.currency, w.later) == Some(r.(stale := false))
  }

  lemma {:induction false} CacheHoldsQuotes(ttl: real, calls: seq<Call>)
    ensures var cache := CacheAfter(ttl, calls);
            cache.Some? ==> UsableRate(cache.value) && !cache.value.stale && QuotedIn(cache.value, calls)
    decreases |calls|
  {
    if calls == [] {
    } else {
      var init, last := calls[..|calls| - 1], calls[|calls| - 1];
      CacheHoldsQuotes(ttl, init);
      var before, after := CacheAfter(ttl, init), CacheAfter(ttl, calls);
      if after.Some? {
        if after == before {
          var i :| 0 <= i < |init| && !init[i].CallInvalidate? && QuotedBy(after.value, init[i].w);
          assert calls[i] == init[i];
        } else {
          assert QuotedBy(after.value, last.w);
        }
      }
    }
  }

  /** The cached rate is of this call's currency and younger than the lifetime. */
  predicate Young(cache: Option<Rate>, ttl: real, w: World) {
    cache.Some? && cache.value.currency == w.currency && w.now - cache.value.fetchedAt < ttl
  }

  /** The cached rate may answer this call without a successful fetch. */
  predicate Serviceable(cache: Option<Rate>, ttl: real, w: World) {
    && cache.Some?
    && cache.value.currency == w.currency
    && (w.now - cache.value.fetchedAt < ttl || w.later - cache.value.fetchedAt <= MAX_STALE_AGE)
  }

  /**
   The ladder over every run, whatever the currency switches, clock readings and outages: an answer of `fresh` is
   in the currency read in that call and was quoted by the feed for it; it is either younger than the lifetime, or
   just fetched, or flagged stale and no older than the cap. A young rate is served without asking, a fetched one is
   served and kept, and a stale one is the cached one. A failed fetch leaves the cache alone, and no answer is given
   exactly when the fetch fails with no usable cached rate. `stale_ok` serves a cached rate of the currency as it is,
   however old, and otherwise whatever the fetch brings.
   */
  lemma LadderOverEveryRun(ttl: real, calls: seq<Call>, w: World)
    ensures var cache := CacheAfter(ttl, calls);
            var (cache', r) := FreshRate(cache, ttl, w);
            var parsed := ParseRate(w.answer, w.currency, w.later);
            && (r.Some? ==>
                  && r.value.currency == w.currency && UsableRate(r.value)
                  && QuotedIn(r.value, calls + [CallFresh(w)])
                  && (if r.value.stale then parsed.None? && w.later - r.value.fetchedAt <= MAX_STALE_AGE &&
                                            w.now - r.value.fetchedAt >= ttl
                      else w.now - r.value.fetchedAt < ttl || r == parsed))
            && (parsed.None? ==> cache' == cache)
            && (Young(cache, ttl, w) ==> r == cache && cache' == cache)
            && (!Young(cache, ttl, w) && parsed.Some? ==> r == parsed && cache' == parsed)
            && (r.Some? && r.value.stale ==> cache.Some? && r == Some(cache.value.(stale := true)))
            && (r.None? <==> parsed.None? && !Serviceable(cache, ttl, w))
    ensures var cache := CacheAfter(ttl, calls);
            var (cache', r) := StaleOkRate(cache, w);
            var parsed := ParseRate(w.answer, w.currency, w.later);
            && (r.Some? ==> r.value.currency == w.currency && UsableRate(r.value) && !r.value.stale &&
                            QuotedIn(r.value, calls + [CallStaleOk(w)]))
            && (cache.Some? && cache.value.currency == w.currency ==> r == cache && cache' == cache)
            && (cache.None? || cache.value.currency != w.currency ==>
                  r == parsed && cache' == if parsed.Some? then parsed else cache)
  {
    CacheHoldsQuotes(ttl, calls);
    var cache := CacheAfter(ttl, calls);
    forall c | c == CallFresh(w) || c == CallStaleOk(w)
      ensures cache.Some? ==> QuotedIn(cache.value, calls + [c]) && QuotedIn(cache.value.(stale := true), calls + [c])
      ensures var parsed := ParseRate(w.answer, w.currency, w.later);
              parsed.Some? ==> QuotedIn(parsed.value, calls + [c])
    {
      var all := calls + [c];
      assert all[|calls|] == c;
      if cache.Some? {
        var i :| 0 <= i < |calls| && !calls[i].CallInvalidate? && QuotedBy(cache.value, calls[i].w);
        assert all[i] == calls[i];
        assert QuotedBy(cache.value.(stale := true), all[i].w);
      }
      var parsed := ParseRate(w.answer, w.currency, w.later);
      assert parsed.Some? ==> QuotedBy(parsed.value, all[|calls|].w);
    }
  }
}
