/**
 Fee bids and their caches (src/localwallet/chain/fees.py).

 Rates are integer centisat/vB; the decimal terms they are rounded from are exact reals. Clock readings and
 endpoint answers are inputs of each call, so a run is any sequence of calls with any answers.
 */
module Fees {
  import opened Basics

  const ASSUMED_MIN_RELAY := 10
  const MAX_BOTTOM_SAT_VB := 10000.0
  const SIX_HOUR_BLOCKS := 6

  // ---------------------------------------------------------------- exact rounding

  datatype Rounding = Ceiling | HalfEven

  function Round(x: real, mode: Rounding): (n: int)
    ensures mode.Ceiling? ==> x <= n as real < x + 1.0
    ensures mode.HalfEven? ==> x - 0.5 <= n as real <= x + 0.5
    ensures mode.HalfEven? && (n as real == x - 0.5 || n as real == x + 0.5) ==> n % 2 == 0
  {
    var f := x.Floor;
    var d := x - f as real;
    if mode.Ceiling? then
      if d == 0.0 then f else f + 1
    else if d < 0.5 || (d == 0.5 && f % 2 == 0) then f
    else f + 1
  }

  /** A sats/vB figure rounded to two decimals, as integer centisat/vB. */
  function ToCents(value: real, mode: Rounding): int {
    Round(100.0 * value, mode)
  }

  /** Rounding keeps order. */
  lemma RoundMonotone(x: real, y: real, mode: Rounding)
    requires x <= y
    ensures Round(x, mode) <= Round(y, mode)
  {
    if x.Floor == y.Floor {
    } else {
      assert x.Floor < y.Floor;
    }
  }

  // ---------------------------------------------------------------- payloads

  datatype Number = NotANumber | NonFinite | Num(value: real)
  datatype Entry = NotAnObject | NoFeeRange | FeeRange(bottom: Number)
  datatype Blocks = NotAList | BlockList(entries: seq<Entry>)
  datatype Fetch<+T> = ChainError | Payload(payload: T)

  function EntryBottom(e: Entry): Option<real> {
    if e.FeeRange? && e.bottom.Num? && 0.0 < e.bottom.value <= MAX_BOTTOM_SAT_VB then Some(e.bottom.value) else None
  }

  predicate NonIncreasing(bottoms: seq<real>) {
    forall i, j :: 0 <= i < j < |bottoms| ==> bottoms[j] <= bottoms[i]
  }

  predicate Plausible(bottoms: seq<real>) {
    && |bottoms| > 0
    && NonIncreasing(bottoms)
    && forall i :: 0 <= i < |bottoms| ==> 0.0 < bottoms[i] <= MAX_BOTTOM_SAT_VB
  }

  /** What makes a mempool-blocks payload trustworthy. */
  predicate Acceptable(p: Blocks) {
    && p.BlockList?
    && |p.entries| > 0
    && (forall i :: 0 <= i < |p.entries| ==> EntryBottom(p.entries[i]).Some?)
    && forall i, j :: 0 <= i < j < |p.entries| ==>
         EntryBottom(p.entries[i]).Some? && EntryBottom(p.entries[j]).Some? &&
         EntryBottom(p.entries[j]).value <= EntryBottom(p.entries[i]).value
  }

  function Bottoms(p: Blocks): (r: seq<real>)
    requires Acceptable(p)
    ensures Plausible(r) && |r| == |p.entries|
    ensures forall i :: 0 <= i < |r| ==> r[i] == p.entries[i].bottom.value
  {
    seq(|p.entries|, i requires 0 <= i < |p.entries| =>
      assert EntryBottom(p.entries[i]).Some?; p.entries[i].bottom.value)
  }

  /** The one-pass validator accepts exactly the trustworthy payloads: adjacent order is enough. */
  method ParseProjectedBottoms(p: Blocks) returns (r: Option<seq<real>>)
    ensures r.Some? <==> Acceptable(p)
    ensures r.Some? ==> r.value == Bottoms(p)
  {
    if p.NotAList? || |p.entries| == 0 {
      return None;
    }
    var bottoms: seq<real> := [];
    for index := 0 to |p.entries|
      invariant |bottoms| == index
      invariant forall i :: 0 <= i < index ==> EntryBottom(p.entries[i]) == Some(bottoms[i])
      invariant NonIncreasing(bottoms)
    {
      var bottom := EntryBottom(p.entries[index]);
      if bottom.None? {
        return None;
      }
      if |bottoms| > 0 && bottom.value > bottoms[|bottoms| - 1] {
        assert EntryBottom(p.entries[index]).value > EntryBottom(p.entries[index - 1]).value;
        return None;
      }
      bottoms := bottoms + [bottom.value];
    }
    return Some(bottoms);
  }

  // ---------------------------------------------------------------- snapshots

  datatype Source = FloorFollower | Recommended
  datatype Estimate = Estimate(rate: int, timestamp: real, source: Source, clamped: bool)

  datatype Snapshot = Snapshot(
    fast: Estimate, medium: Estimate, slow: Estimate, minimumFee: int, fetchedAt: real,
    nextBlockFloor: Option<int>, native: bool, averageLow: Option<int>)

  /** A larger target never costs more. */
  predicate IsLadder(s: Snapshot) {
    s.fast.rate >= s.medium.rate >= s.slow.rate
  }

  function Sum(s: seq<real>): real {
    if s == [] then 0.0 else s[0] + Sum(s[1..])
  }

  /** 1.15 times the next block's bottom, half-even, lifted to the bottom if the rounding dipped under it. */
  function TargetRate(b0: real): int {
    var target := ToCents(b0 * 1.15, HalfEven);
    if target as real / 100.0 < b0 then ToCents(b0, Ceiling) else target
  }

  function Mean(window: seq<real>): real
    requires window != []
  {
    Sum(window) / |window| as real
  }

  function TargetFollower(bottoms: seq<real>, minimumFee: int, now: real): Snapshot
    requires |bottoms| > 0
  {
    var target := TargetRate(bottoms[0]);
    var slow := ToCents(if |bottoms| > 1 then bottoms[1] else bottoms[0], Ceiling);
    var window := bottoms[..Min(SIX_HOUR_BLOCKS, |bottoms|)];
    Snapshot(
      Estimate(2 * target, now, FloorFollower, false),
      Estimate(target, now, FloorFollower, false),
      Estimate(slow, now, FloorFollower, false),
      minimumFee, now, Some(ToCents(bottoms[0], Ceiling)), false,
      Some(ToCents(Mean(window), HalfEven)))
  }

  function Lift(e: Estimate, floor: int): Estimate {
    if e.rate < floor then e.(rate := floor, clamped := true) else e
  }

  /** Every rung is raised independently to the floor, which itself never drops below the assumed one. */
  function ApplyFloor(s: Snapshot, queried: int): Snapshot {
    var floor := Max(queried, ASSUMED_MIN_RELAY);
    s.(fast := Lift(s.fast, floor), medium := Lift(s.medium, floor), slow := Lift(s.slow, floor))
  }

  // ---------------------------------------------------------------- the target-follower's closed form

  /** The final policy floor: the next block's own bottom, the node's relay floor, the assumed floor. */
  function PolicyFloor(b0: real, relay: int): int {
    Max(Max(ToCents(b0, Ceiling), relay), ASSUMED_MIN_RELAY)
  }

  function FinalBids(bottoms: seq<real>, minimumFee: int, now: real, relay: int): Snapshot
    requires |bottoms| > 0
  {
    ApplyFloor(TargetFollower(bottoms, minimumFee, now), Max(ToCents(bottoms[0], Ceiling), relay))
  }

  /** The dip under the source bottom happens only for tiny bottoms, and then only below 10/3 centisat. */
  lemma RoundingDipOnlyWhenTiny(b0: real)
    requires b0 > 0.0
    ensures TargetRate(b0) != ToCents(b0 * 1.15, HalfEven) ==> 100.0 * b0 < 10.0 / 3.0 && ToCents(b0, Ceiling) <= 4
    ensures TargetRate(b0) as real >= 100.0 * b0
  {
  }

  /**
   The bids actually served, in closed form. The unlifted target already gives them: the lift for a rounding
   dip never changes a final bid. The second block does not occur in the result.
   */
  lemma TargetFollowerClosedForm(bottoms: seq<real>, minimumFee: int, now: real, relay: int)
    requires Plausible(bottoms)
    ensures var s := FinalBids(bottoms, minimumFee, now, relay);
            var floor := PolicyFloor(bottoms[0], relay);
            var markup := Round(115.0 * bottoms[0], HalfEven);
            && s.fast.rate == Max(2 * markup, floor)
            && s.medium.rate == Max(markup, floor)
            && s.slow.rate == floor
            && IsLadder(s)
            && (s.fast.clamped <==> 2 * markup < floor)
            && (s.medium.clamped <==> markup < floor)
  {
    var b0 := bottoms[0];
    assert 100.0 * (b0 * 1.15) == 115.0 * b0;
    RoundingDipOnlyWhenTiny(b0);
    var last := if |bottoms| > 1 then bottoms[1] else b0;
    RoundMonotone(100.0 * last, 100.0 * b0, Ceiling);
  }

  /** The displayed six-hour figure lies between the rounded extremes of the window it averages. */
  lemma AverageWithinWindow(bottoms: seq<real>, minimumFee: int, now: real)
    requires Plausible(bottoms)
    ensures var window := bottoms[..Min(SIX_HOUR_BLOCKS, |bottoms|)];
            var average := TargetFollower(bottoms, minimumFee, now).averageLow;
            average.Some? &&
            ToCents(window[|window| - 1], HalfEven) <= average.value <= ToCents(bottoms[0], HalfEven)
  {
    var window := bottoms[..Min(SIX_HOUR_BLOCKS, |bottoms|)];
    SumBounds(window, window[|window| - 1], bottoms[0]);
    MeanBetween(Sum(window), |window| as real, window[|window| - 1], bottoms[0]);
    CentsMonotone(window[|window| - 1], Mean(window), HalfEven);
    CentsMonotone(Mean(window), bottoms[0], HalfEven);
  }

  lemma CentsMonotone(x: real, y: real, mode: Rounding)
    requires x <= y
    ensures ToCents(x, mode) <= ToCents(y, mode)
  {
    RoundMonotone(100.0 * x, 100.0 * y, mode);
  }

  lemma MeanBetween(total: real, n: real, low: real, high: real)
    requires n > 0.0 && n * low <= total <= n * high
    ensures low <= total / n <= high
  {
    var mean := total / n;
    assert mean * n == total;
    assert (mean - low) * n == total - n * low;
    assert (high - mean) * n == n * high - total;
    SignOfFactor(mean - low, n);
    SignOfFactor(high - mean, n);
  }

  lemma SignOfFactor(x: real, n: real)
    requires n > 0.0 && x * n >= 0.0
    ensures x >= 0.0
  {
  }

  lemma {:induction false} SumBounds(s: seq<real>, low: real, high: real)
    requires forall i :: 0 <= i < |s| ==> low <= s[i] <= high
    ensures |s| as real * low <= Sum(s) <= |s| as real * high
  {
    if s == [] {
    } else {
      SumBounds(s[1..], low, high);
      assert |s| as real == |s[1..]| as real + 1.0;
    }
  }

  // ---------------------------------------------------------------- the recommended fallback

  datatype Field = NotAnInt | Whole(value: int)
  datatype RecommendedPayload =
    | NotAFeeObject
    | FeeObject(fastest: Field, halfHour: Field, hour: Field, economy: Field, minimum: Field)

  predicate PositiveField(f: Field) {
    f.Whole? && f.value > 0
  }

  function ParseRecommended(p: RecommendedPayload, now: real): Option<Snapshot> {
    if p.FeeObject? && PositiveField(p.fastest) && PositiveField(p.halfHour) && PositiveField(p.hour) &&
       PositiveField(p.economy) && PositiveField(p.minimum)
    then
      Some(Snapshot(
        Estimate(p.fastest.value * 100, now, Recommended, false),
        Estimate(p.halfHour.value * 100, now, Recommended, false),
        Estimate(p.hour.value * 100, now, Recommended, false),
        p.minimum.value, now, None, false, None))
    else None
  }

  /** Three figures whose every inversion lies at or below the floor. */
  predicate OrderedAbove(fast: int, medium: int, slow: int, floor: int) {
    (fast >= medium || medium <= floor) && (medium >= slow || slow <= floor)
  }

  /** Figures raised to one floor come out ordered exactly when their inversions vanish in it. */
  lemma RaisedOrder(fast: int, medium: int, slow: int, floor: int)
    ensures Max(fast, floor) >= Max(medium, floor) >= Max(slow, floor) <==> OrderedAbove(fast, medium, slow, floor)
  {
  }

  /**
   The ladder is promised to stay ordered, but the fallback payload is never checked for order. It comes out
   ordered exactly when each inversion of the payload lies at or below the final floor.
   */
  lemma FallbackLadderOrder(p: RecommendedPayload, now: real, queried: int)
    requires ParseRecommended(p, now).Some?
    ensures var s := ApplyFloor(ParseRecommended(p, now).value, queried);
            var floor := Max(queried, ASSUMED_MIN_RELAY);
            IsLadder(s) <==>
            OrderedAbove(p.fastest.value * 100, p.halfHour.value * 100, p.hour.value * 100, floor)
  {
    var s := ApplyFloor(ParseRecommended(p, now).value, queried);
    var floor := Max(queried, ASSUMED_MIN_RELAY);
    RaisedOrder(p.fastest.value * 100, p.halfHour.value * 100, p.hour.value * 100, floor);
    assert s.fast.rate == Max(p.fastest.value * 100, floor);
    assert s.medium.rate == Max(p.halfHour.value * 100, floor);
    assert s.slow.rate == Max(p.hour.value * 100, floor);
  }

  // ---------------------------------------------------------------- relay floor and caches

  /** The floor source's answer: no such capability, an exception, a non-integer, or a figure. */
  datatype FloorAnswer = NoCapability | QueryRaised | NotAnInteger | Figure(value: int)

  function BackendFloor(a: FloorAnswer): (floor: int)
    ensures floor >= ASSUMED_MIN_RELAY
    ensures floor > ASSUMED_MIN_RELAY ==> a == Figure(floor)
    ensures a.Figure? ==> floor >= a.value
  {
    if a.Figure? && a.value > 0 then Max(a.value, ASSUMED_MIN_RELAY) else ASSUMED_MIN_RELAY
  }

  /** What the outside world offers to one call. */
  datatype World = World(
    now: real, floorNow: real,
    recommended: Fetch<RecommendedPayload>, blocks: Fetch<Blocks>,
    nativeFast: Fetch<Field>, nativeMedium: Fetch<Field>, nativeSlow: Fetch<Field>,
    walletFloor: FloorAnswer, ownFloor: FloorAnswer)

  /** One floor query or one reset of the floor cache, in the order they happened. */
  datatype FloorEvent = Queried(at: real) | Dropped

  /**
   The estimator's three mutable fields, then two history components: the floor folded into the cached
   snapshot with the time it was resolved, and the log of floor queries and resets.
   */
  datatype State = State(
    cache: Option<Snapshot>, floorCache: Option<(int, real)>, walletWired: bool,
    embedded: Option<(int, real)>, log: seq<FloorEvent>)

  const NO_STATE := State(None, None, false, None, [])

  function RelayFloor(st: State, ttl: real, now: real, w: World): (r: (State, int, real))
    ensures r.0.cache == st.cache && r.0.embedded == st.embedded && r.0.walletWired == st.walletWired
  {
    if st.floorCache.Some? && now - st.floorCache.value.1 < ttl then
      (st, st.floorCache.value.0, st.floorCache.value.1)
    else
      var floor := BackendFloor(if st.walletWired then w.walletFloor else w.ownFloor);
      (st.(floorCache := Some((floor, now)), log := st.log + [Queried(now)]), floor, now)
  }

  function NativeSnapshot(w: World): Option<Snapshot> {
    if w.nativeFast.Payload? && PositiveField(w.nativeFast.payload) &&
       w.nativeMedium.Payload? && PositiveField(w.nativeMedium.payload) &&
       w.nativeSlow.Payload? && PositiveField(w.nativeSlow.payload)
    then
      Some(Snapshot(
        Estimate(w.nativeFast.payload.value * 100, w.now, Recommended, false),
        Estimate(w.nativeMedium.payload.value * 100, w.now, Recommended, false),
        Estimate(w.nativeSlow.payload.value * 100, w.now, Recommended, false),
        0, w.now, None, true, None))
    else None
  }

  /** The snapshot before the floor, or `None` when the refresh fails. */
  function Derived(hasJson: bool, w: World): Option<Snapshot> {
    if !hasJson then NativeSnapshot(w)
    else if w.recommended.ChainError? || ParseRecommended(w.recommended.payload, w.now).None? then None
    else
      var fallback := ParseRecommended(w.recommended.payload, w.now).value;
      if w.blocks.Payload? && Acceptable(w.blocks.payload) then
        Some(TargetFollower(Bottoms(w.blocks.payload), fallback.minimumFee, w.now))
      else Some(fallback)
  }

  /** The floor's other operand: the next block's bottom, the congestion minimum, or nothing. */
  function SnapshotFloor(s: Snapshot): int {
    if s.native then ASSUMED_MIN_RELAY
    else if s.nextBlockFloor.Some? then s.nextBlockFloor.value
    else s.minimumFee * 100
  }

  predicate Fresh(st: State, ttl: real, now: real) {
    st.cache.Some? && now - st.cache.value.fetchedAt < ttl
  }

  function Refresh(st: State, ttl: real, hasJson: bool, w: World): (State, Option<Snapshot>) {
    if Fresh(st, ttl, w.now) then (st, st.cache)
    else if Derived(hasJson, w).None? then (st, None)
    else
      var derived := Derived(hasJson, w).value;
      var (st', relay, at) := RelayFloor(st, ttl, w.floorNow, w);
      var s := ApplyFloor(derived, Max(SnapshotFloor(derived), relay));
      (st'.(cache := Some(s), embedded := Some((relay, at))), Some(s))
  }

  /** A backend whose fallback figures rise with the target and whose projected blocks cannot be fetched. */
  function InvertedWorld(): World {
    World(0.0, 0.0, Payload(FeeObject(Whole(3), Whole(5), Whole(4), Whole(1), Whole(1))), ChainError,
          ChainError, ChainError, ChainError, NoCapability, NoCapability)
  }

  /** The fallback ladder can be served out of order: a refresh from such a backend stores FAST under MEDIUM. */
  lemma FallbackLadderCanInvert(ttl: real)
    ensures var (st, served) := Refresh(NO_STATE, ttl, true, InvertedWorld());
            served.Some? && st.cache == served && served.value.fast.rate < served.value.medium.rate
  {
    var s := ParseRecommended(InvertedWorld().recommended.payload, 0.0).value;
    assert Derived(true, InvertedWorld()) == Some(s);
    assert RelayFloor(NO_STATE, ttl, 0.0, InvertedWorld()).1 == ASSUMED_MIN_RELAY;
  }

  // ---------------------------------------------------------------- the estimator

  class FeeEstimator {
    var cache: Option<Snapshot>
    var floorCache: Option<(int, real)>
    var walletWired: bool
    const ttl: real
    const hasJson: bool
    ghost var embedded: Option<(int, real)>
    ghost var log: seq<FloorEvent>

    ghost function Abs(): State
      reads this
    {
      State(cache, floorCache, walletWired, embedded, log)
    }

    constructor (ttl: real, hasJson: bool, walletWired: bool)
      requires ttl > 0.0
      ensures Abs() == NO_STATE.(walletWired := walletWired)
      ensures this.ttl == ttl && this.hasJson == hasJson
    {
      this.ttl, this.hasJson, this.walletWired := ttl, hasJson, walletWired;
      cache, floorCache := None, None;
      embedded, log := None, [];
    }

    method SetRelayFloorClient(wired: bool)
      modifies this
      ensures Abs() == old(Abs()).(walletWired := wired, floorCache := None, log := old(log) + [Dropped])
    {
      walletWired := wired;
      floorCache := None;
      log := log + [Dropped];
    }

    method Invalidate()
      modifies this
      ensures Abs() == old(Abs()).(cache := None, floorCache := None, embedded := None, log := old(log) + [Dropped])
    {
      cache, floorCache := None, None;
      embedded, log := None, log + [Dropped];
    }

    method RelayFloorCentisat(now: real, w: World) returns (floor: int, ghost at: real)
      modifies this
      ensures (Abs(), floor, at) == RelayFloor(old(Abs()), ttl, now, w)
    {
      if floorCache.Some? && now - floorCache.value.1 < ttl {
        return floorCache.value.0, floorCache.value.1;
      }
      floor := BackendFloor(if walletWired then w.walletFloor else w.ownFloor);
      floorCache := Some((floor, now));
      log, at := log + [Queried(now)], now;
    }

    method GetSnapshot(w: World) returns (r: Option<Snapshot>)
      modifies this
      ensures (Abs(), r) == Refresh(old(Abs()), ttl, hasJson, w)
    {
      if cache.Some? && w.now - cache.value.fetchedAt < ttl {
        return cache;
      }
      var snapshot: Snapshot;
      if !hasJson {
        var native := NativeSnapshot(w);
        if native.None? {
          return None;
        }
        snapshot := native.value;
      } else {
        if w.recommended.ChainError? {
          return None;
        }
        var recommended := ParseRecommended(w.recommended.payload, w.now);
        if recommended.None? {
          return None;
        }
        snapshot := recommended.value;
        if w.blocks.Payload? {
          var bottoms := ParseProjectedBottoms(w.blocks.payload);
          if bottoms.Some? {
            snapshot := TargetFollower(bottoms.value, snapshot.minimumFee, w.now);
          }
        }
      }
      var relay, at := RelayFloorCentisat(w.floorNow, w);
      if snapshot.native {
        snapshot := ApplyFloor(snapshot, relay);
      } else if snapshot.nextBlockFloor.None? {
        snapshot := ApplyFloor(snapshot, Max(snapshot.minimumFee * 100, relay));
      } else {
        snapshot := ApplyFloor(snapshot, Max(snapshot.nextBlockFloor.value, relay));
      }
      cache := Some(snapshot);
      embedded := Some((relay, at));
      return cache;
    }

    /** An explicit rate is raised to the relay floor alone; the fee snapshot is neither read nor refreshed. */
    method ClampToMinRelayFloor(rate: int, w: World) returns (bid: int, raised: bool)
      requires rate >= 0
      modifies this
      ensures var (st, floor, at) := RelayFloor(old(Abs()), ttl, w.floorNow, w);
              Abs() == st && bid == Max(rate, floor) && (raised <==> rate < floor)
      ensures cache == old(cache)
    {
      var floor, at := RelayFloorCentisat(w.floorNow, w);
      if rate < floor {
        return floor, true;
      }
      return rate, false;
    }
  }

  // ---------------------------------------------------------------- all runs of one estimator

  datatype Call =
    | EstimateCall(w: World)
    | ClampCall(rate: nat, w: World)
    | InvalidateCall
    | RepointCall(wired: bool)

  function StepCall(st: State, ttl: real, hasJson: bool, c: Call): State {
    match c
    case EstimateCall(w) => Refresh(st, ttl, hasJson, w).0
    case ClampCall(rate, w) => RelayFloor(st, ttl, w.floorNow, w).0
    case InvalidateCall =>
      st.(cache := None, floorCache := None, embedded := None, log := st.log + [Dropped])
    case RepointCall(wired) => st.(walletWired := wired, floorCache := None, log := st.log + [Dropped])
  }

  function RunCalls(st: State, ttl: real, hasJson: bool, calls: seq<Call>): State {
    if calls == [] then st
    else StepCall(RunCalls(st, ttl, hasJson, calls[..|calls| - 1]), ttl, hasJson, calls[|calls| - 1])
  }

  function FirstReading(c: Call, before: real): real {
    match c case EstimateCall(w) => w.now case ClampCall(_, w) => w.floorNow case _ => before
  }

  function LastReading(c: Call, before: real): real {
    match c case EstimateCall(w) => w.floorNow case ClampCall(_, w) => w.floorNow case _ => before
  }

  /** The reading of the clock after the calls; it never runs backwards. */
  function ClockAfter(start: real, calls: seq<Call>): real {
    if calls == [] then start
    else LastReading(calls[|calls| - 1], ClockAfter(start, calls[..|calls| - 1]))
  }

  predicate ClockMonotone(start: real, calls: seq<Call>) {
    calls == [] ||
    var before := ClockAfter(start, calls[..|calls| - 1]);
    var c := calls[|calls| - 1];
    ClockMonotone(start, calls[..|calls| - 1]) &&
    before <= FirstReading(c, before) <= LastReading(c, before)
  }

  /** Queries of the floor source with no reset between them are at least one lifetime apart. */
  predicate Spaced(log: seq<FloorEvent>, ttl: real) {
    forall i :: 0 < i < |log| && log[i - 1].Queried? && log[i].Queried? ==> log[i].at - log[i - 1].at >= ttl
  }

  predicate AtLeast(s: Snapshot, floor: int) {
    s.fast.rate >= floor && s.medium.rate >= floor && s.slow.rate >= floor
  }

  predicate Inv(st: State, ttl: real, clock: real) {
    && Spaced(st.log, ttl)
    && (st.floorCache.Some? ==>
          && st.floorCache.value.1 <= clock
          && st.floorCache.value.0 >= ASSUMED_MIN_RELAY
          && |st.log| > 0 && st.log[|st.log| - 1] == Queried(st.floorCache.value.1))
    && (st.floorCache.None? ==> st.log == [] || st.log[|st.log| - 1].Dropped?)
    && (st.cache.Some? ==>
          && st.embedded.Some?
          && st.cache.value.fetchedAt <= clock
          && st.cache.value.fetchedAt - st.embedded.value.1 < ttl
          && st.embedded.value.1 <= clock
          && AtLeast(st.cache.value, Max(st.embedded.value.0, ASSUMED_MIN_RELAY))
          && (st.cache.value.nextBlockFloor.Some? ==> IsLadder(st.cache.value)))
  }

  lemma RelayFloorKeeps(st: State, ttl: real, clock: real, now: real, w: World)
    requires ttl > 0.0 && Inv(st, ttl, clock) && clock <= now
    ensures var (st', floor, at) := RelayFloor(st, ttl, now, w);
            Inv(st', ttl, now) && now - at < ttl && at <= now && floor >= ASSUMED_MIN_RELAY
  {
    var (st', floor, at) := RelayFloor(st, ttl, now, w);
    if st' != st {
      assert st'.log[..|st.log|] == st.log;
      assert forall i :: 0 <= i < |st.log| ==> st'.log[i] == st.log[i];
    }
  }

  /** What a refresh stores: stamped now, at or over the relay floor, and a ladder when read from projected blocks. */
  lemma StoredBids(hasJson: bool, w: World, relay: int)
    requires Derived(hasJson, w).Some?
    ensures var derived := Derived(hasJson, w).value;
            var s := ApplyFloor(derived, Max(SnapshotFloor(derived), relay));
            && s.fetchedAt == w.now
            && AtLeast(s, Max(relay, ASSUMED_MIN_RELAY))
            && (s.nextBlockFloor.Some? ==> IsLadder(s))
  {
    var derived := Derived(hasJson, w).value;
    if derived.nextBlockFloor.Some? {
      TargetFollowerClosedForm(Bottoms(w.blocks.payload), derived.minimumFee, w.now, relay);
    }
  }

  /** Without the fee endpoints each bid is its own target's estimate, or the relay floor where that is higher. */
  lemma NativeBids(w: World, relay: int)
    requires Derived(false, w).Some?
    ensures var s := ApplyFloor(Derived(false, w).value, Max(SnapshotFloor(Derived(false, w).value), relay));
            var floor := Max(relay, ASSUMED_MIN_RELAY);
            && s.fast.rate == Max(100 * w.nativeFast.payload.value, floor)
            && s.medium.rate == Max(100 * w.nativeMedium.payload.value, floor)
            && s.slow.rate == Max(100 * w.nativeSlow.payload.value, floor)
            && s.native && s.nextBlockFloor.None? && s.averageLow.None?
            && (IsLadder(s) <==> OrderedAbove(100 * w.nativeFast.payload.value, 100 * w.nativeMedium.payload.value,
                                              100 * w.nativeSlow.payload.value, floor))
  {
    var s := Derived(false, w).value;
    assert Max(SnapshotFloor(s), relay) == Max(relay, ASSUMED_MIN_RELAY);
    assert s.fast.rate == w.nativeFast.payload.value * 100;
  }

  /** The refresh read its bids from the projected blocks. */
  predicate FromBlocks(hasJson: bool, w: World) {
    hasJson && w.blocks.Payload? && Acceptable(w.blocks.payload)
  }

  /** The backend's own three figures in centisat: the fallback payload's, or the estimates asked one by one. */
  function BackendFigures(hasJson: bool, w: World): (int, int, int)
    requires Derived(hasJson, w).Some?
  {
    if hasJson then
      var p := w.recommended.payload;
      (p.fastest.value * 100, p.halfHour.value * 100, p.hour.value * 100)
    else (100 * w.nativeFast.payload.value, 100 * w.nativeMedium.payload.value, 100 * w.nativeSlow.payload.value)
  }

  /** The floor put under those figures: the congestion minimum where the backend states one, the node's, the assumed. */
  function BackendFiguresFloor(hasJson: bool, w: World, relay: int): int
    requires Derived(hasJson, w).Some?
  {
    Max(if hasJson then Max(w.recommended.payload.minimum.value * 100, relay) else relay, ASSUMED_MIN_RELAY)
  }

  lemma DerivedLadder(hasJson: bool, w: World, relay: int)
    requires Derived(hasJson, w).Some?
    ensures var derived := Derived(hasJson, w).value;
            var figures := BackendFigures(hasJson, w);
            IsLadder(ApplyFloor(derived, Max(SnapshotFloor(derived), relay))) <==>
              FromBlocks(hasJson, w) ||
              OrderedAbove(figures.0, figures.1, figures.2, BackendFiguresFloor(hasJson, w, relay))
  {
    if !hasJson {
      NativeBids(w, relay);
    } else if FromBlocks(hasJson, w) {
      StoredBids(hasJson, w, relay);
    } else {
      var p := w.recommended.payload;
      FallbackLadderOrder(p, w.now, Max(p.minimum.value * 100, relay));
    }
  }

  /** The condition of the ladder: projected blocks, or no inversion above the floor that this refresh resolves. */
  predicate KeepsOrder(st: State, ttl: real, hasJson: bool, w: World)
    requires Derived(hasJson, w).Some?
  {
    var figures := BackendFigures(hasJson, w);
    FromBlocks(hasJson, w) ||
    OrderedAbove(figures.0, figures.1, figures.2,
                 BackendFiguresFloor(hasJson, w, RelayFloor(st, ttl, w.floorNow, w).1))
  }

  /** A refresh derives these bids afresh. */
  predicate Stores(st: State, ttl: real, hasJson: bool, w: World, s: Snapshot) {
    !Fresh(st, ttl, w.now) && Derived(hasJson, w).Some? && Refresh(st, ttl, hasJson, w).0.cache == Some(s)
  }

  /**
   Exactly when a refresh stores bids that fall with the target, over everything it can be derived from: always from
   projected blocks, and from a backend's own figures exactly when every inversion of theirs vanishes in the floor.
   */
  lemma LadderExactly(st: State, ttl: real, hasJson: bool, w: World, s: Snapshot)
    requires Stores(st, ttl, hasJson, w, s)
    ensures IsLadder(s) <==> KeepsOrder(st, ttl, hasJson, w)
  {
    DerivedLadder(hasJson, w, RelayFloor(st, ttl, w.floorNow, w).1);
  }

  /** A backend without the fee endpoints whose estimates rise with the target. */
  function InvertedNativeWorld(): World {
    World(0.0, 0.0, ChainError, ChainError, Payload(Whole(3)), Payload(Whole(5)), Payload(Whole(4)),
          NoCapability, NoCapability)
  }

  /** The estimates asked one by one are not compared either: such a backend's FAST is stored under its MEDIUM. */
  lemma NativeLadderCanInvert(ttl: real)
    ensures var (st, served) := Refresh(NO_STATE, ttl, false, InvertedNativeWorld());
            served.Some? && st.cache == served && served.value.fast.rate < served.value.medium.rate
  {
    assert Derived(false, InvertedNativeWorld()).Some?;
    NativeBids(InvertedNativeWorld(), RelayFloor(NO_STATE, ttl, 0.0, InvertedNativeWorld()).1);
    assert RelayFloor(NO_STATE, ttl, 0.0, InvertedNativeWorld()).1 == ASSUMED_MIN_RELAY;
  }

  lemma RefreshKeeps(st: State, ttl: real, hasJson: bool, clock: real, w: World)
    requires ttl > 0.0 && Inv(st, ttl, clock) && clock <= w.now <= w.floorNow
    ensures var (st', served) := Refresh(st, ttl, hasJson, w);
            && Inv(st', ttl, w.floorNow)
            && (served.None? ==> st' == st)
            && (served.Some? ==> served == st'.cache && w.now - served.value.fetchedAt < ttl &&
                                 w.now - st'.embedded.value.1 < 2.0 * ttl)
  {
    if !Fresh(st, ttl, w.now) && Derived(hasJson, w).Some? {
      RelayFloorKeeps(st, ttl, clock, w.floorNow, w);
      StoredBids(hasJson, w, RelayFloor(st, ttl, w.floorNow, w).1);
    }
  }

  lemma ResetKeeps(st: State, ttl: real, hasJson: bool, clock: real, c: Call)
    requires Inv(st, ttl, clock) && (c.InvalidateCall? || c.RepointCall?)
    ensures Inv(StepCall(st, ttl, hasJson, c), ttl, clock)
  {
    var st' := StepCall(st, ttl, hasJson, c);
    assert st'.log == st.log + [Dropped];
    assert forall i :: 0 <= i < |st.log| ==> st'.log[i] == st.log[i];
  }

  lemma StepKeeps(st: State, ttl: real, hasJson: bool, clock: real, c: Call)
    requires ttl > 0.0 && Inv(st, ttl, clock) && clock <= FirstReading(c, clock) <= LastReading(c, clock)
    ensures Inv(StepCall(st, ttl, hasJson, c), ttl, LastReading(c, clock))
  {
    match c
    case EstimateCall(w) => RefreshKeeps(st, ttl, hasJson, clock, w);
    case ClampCall(_, w) => RelayFloorKeeps(st, ttl, clock, w.floorNow, w);
    case _ => ResetKeeps(st, ttl, hasJson, clock, c);
  }

  lemma {:induction false} RunKeepsInvariant(ttl: real, hasJson: bool, wired: bool, start: real, calls: seq<Call>)
    requires ttl > 0.0 && ClockMonotone(start, calls)
    ensures Inv(RunCalls(NO_STATE.(walletWired := wired), ttl, hasJson, calls), ttl, ClockAfter(start, calls))
    decreases |calls|
  {
    if calls == [] {
    } else {
      var init := calls[..|calls| - 1];
      RunKeepsInvariant(ttl, hasJson, wired, start, init);
      var st := RunCalls(NO_STATE.(walletWired := wired), ttl, hasJson, init);
      var clock := ClockAfter(start, init);
      StepKeeps(st, ttl, hasJson, clock, calls[|calls| - 1]);
    }
  }

  /**
   Staleness in every run: a served set of bids was fetched less than one lifetime before the call's reading of
   the clock, the relay floor folded into it was resolved less than two lifetimes before, even across re-pointing,
   every bid respects that floor, and bids from projected blocks come as an ordered ladder. A failed refresh
   leaves the state as it was.
   */
  lemma ServedBidsAreFresh(ttl: real, hasJson: bool, wired: bool, start: real, calls: seq<Call>, w: World)
    requires ttl > 0.0 && ClockMonotone(start, calls + [EstimateCall(w)])
    ensures var st := RunCalls(NO_STATE.(walletWired := wired), ttl, hasJson, calls);
            var (st', served) := Refresh(st, ttl, hasJson, w);
            && (served.None? ==> st' == st)
            && (served.Some? ==>
                  && w.now - served.value.fetchedAt < ttl
                  && st'.embedded.Some? && w.now - st'.embedded.value.1 < 2.0 * ttl
                  && AtLeast(served.value, Max(st'.embedded.value.0, ASSUMED_MIN_RELAY))
                  && (served.value.nextBlockFloor.Some? ==> IsLadder(served.value)))
  {
    var all := calls + [EstimateCall(w)];
    assert all[..|all| - 1] == calls;
    RunKeepsInvariant(ttl, hasJson, wired, start, calls);
    RefreshKeeps(RunCalls(NO_STATE.(walletWired := wired), ttl, hasJson, calls), ttl, hasJson,
                 ClockAfter(start, calls), w);
  }

  /** These bids were stored by the k-th call of the run, and are a ladder exactly when that refresh keeps order. */
  predicate StoredInOrder(st: State, ttl: real, hasJson: bool, calls: seq<Call>, k: nat, s: Snapshot) {
    && k < |calls| && calls[k].EstimateCall?
    && var before := RunCalls(st, ttl, hasJson, calls[..k]);
       && Stores(before, ttl, hasJson, calls[k].w, s)
       && (IsLadder(s) <==> KeepsOrder(before, ttl, hasJson, calls[k].w))
  }

  lemma CacheMovesByRefresh(st: State, ttl: real, hasJson: bool, c: Call)
    ensures var cache := StepCall(st, ttl, hasJson, c).cache;
            cache == st.cache || cache == None || (c.EstimateCall? && Stores(st, ttl, hasJson, c.w, cache.value))
  {
  }

  /**
   Whether the bids in the cache are the promised ladder, in every run: they go back to one refresh of it, and are a
   ladder exactly when that refresh read projected blocks or found no inversion above its floor.
   */
  lemma {:induction false} CachedLadderExactly(st: State, ttl: real, hasJson: bool, calls: seq<Call>)
    requires st.cache.None?
    ensures var cache := RunCalls(st, ttl, hasJson, calls).cache;
            cache.Some? ==> exists k: nat :: StoredInOrder(st, ttl, hasJson, calls, k, cache.value)
    decreases |calls|
  {
    if calls == [] {
    } else {
      var last := |calls| - 1;
      var init := calls[..last];
      CachedLadderExactly(st, ttl, hasJson, init);
      var before := RunCalls(st, ttl, hasJson, init);
      var cache := StepCall(before, ttl, hasJson, calls[last]).cache;
      CacheMovesByRefresh(before, ttl, hasJson, calls[last]);
      if cache.Some? && cache == before.cache {
        var k: nat :| StoredInOrder(st, ttl, hasJson, init, k, cache.value);
        assert init[..k] == calls[..k];
        assert StoredInOrder(st, ttl, hasJson, calls, k, cache.value);
      } else if cache.Some? {
        LadderExactly(before, ttl, hasJson, calls[last].w, cache.value);
        assert StoredInOrder(st, ttl, hasJson, calls, last, cache.value);
      }
    }
  }

  /** A served set of bids is the one in the cache after the call. */
  lemma ServedLadderExactly(ttl: real, hasJson: bool, wired: bool, calls: seq<Call>, w: World)
    ensures var st := NO_STATE.(walletWired := wired);
            var served := Refresh(RunCalls(st, ttl, hasJson, calls), ttl, hasJson, w).1;
            served.Some? ==> exists k: nat :: StoredInOrder(st, ttl, hasJson, calls + [EstimateCall(w)], k, served.value)
  {
    var all := calls + [EstimateCall(w)];
    assert all[..|all| - 1] == calls;
    CachedLadderExactly(NO_STATE.(walletWired := wired), ttl, hasJson, all);
  }

  /** In every run, two floor queries with no invalidation or re-pointing between them are a lifetime apart. */
  lemma FloorQueriedOncePerLifetime(ttl: real, hasJson: bool, wired: bool, start: real, calls: seq<Call>,
                                    i: nat, j: nat)
    requires ttl > 0.0 && ClockMonotone(start, calls)
    requires var log := RunCalls(NO_STATE.(walletWired := wired), ttl, hasJson, calls).log;
             i < j < |log| && forall k :: i <= k <= j ==> log[k].Queried?
    ensures var log := RunCalls(NO_STATE.(walletWired := wired), ttl, hasJson, calls).log;
            log[j].at - log[i].at >= ttl
    decreases j - i
  {
    RunKeepsInvariant(ttl, hasJson, wired, start, calls);
    if i + 1 < j {
      FloorQueriedOncePerLifetime(ttl, hasJson, wired, start, calls, i + 1, j);
    }
  }

  // ---------------------------------------------------------------- display

  function Digit(d: nat): char
    requires d < 10
  {
    ('0' as int + d) as char
  }

  function Digits(n: nat): (r: string)
    ensures r != ""
  {
    if n < 10 then [Digit(n)] else Digits(n / 10) + [Digit(n % 10)]
  }

  /** Trailing zeros of the two fraction digits are dropped, and the point with them. */
  function FractionText(tenths: nat, hundredths: nat): string
    requires tenths < 10 && hundredths < 10
  {
    if tenths == 0 && hundredths == 0 then ""
    else if hundredths == 0 then ['.', Digit(tenths)]
    else ['.', Digit(tenths), Digit(hundredths)]
  }

  function FormatSatVb(centisat: nat): string {
    Digits(centisat / 100) + FractionText(centisat / 10 % 10, centisat % 10)
  }

  predicate IsDigit(ch: char) {
    '0' <= ch <= '9'
  }

  function ValueOf(ch: char): nat
    requires IsDigit(ch)
  {
    ch as nat - '0' as nat
  }

  /** Reading a displayed rate: digits, then at most a point with one or two more. */
  function ReadSatVb(s: string): Option<nat> {
    if s == "" then None else ReadWhole(s, 0)
  }

  function ReadWhole(s: string, whole: nat): Option<nat> {
    if s == "" then Some(100 * whole)
    else if s[0] == '.' then ReadFraction(s[1..], whole)
    else if IsDigit(s[0]) then ReadWhole(s[1..], 10 * whole + ValueOf(s[0]))
    else None
  }

  function ReadFraction(t: string, whole: nat): Option<nat> {
    if |t| == 1 && IsDigit(t[0]) then Some(100 * whole + 10 * ValueOf(t[0]))
    else if |t| == 2 && IsDigit(t[0]) && IsDigit(t[1]) then Some(100 * whole + 10 * ValueOf(t[0]) + ValueOf(t[1]))
    else None
  }

  lemma ReadsDigit(d: nat, rest: string, whole: nat)
    requires d < 10
    ensures ReadWhole([Digit(d)] + rest, whole) == ReadWhole(rest, 10 * whole + d)
  {
    assert ([Digit(d)] + rest)[1..] == rest;
  }

  lemma {:induction false} DigitsReadBack(n: nat, rest: string)
    ensures ReadWhole(Digits(n) + rest, 0) == ReadWhole(rest, n)
  {
    if n < 10 {
      ReadsDigit(n, rest, 0);
    } else {
      var last := [Digit(n % 10)];
      DigitsReadBack(n / 10, last + rest);
      ReadsDigit(n % 10, rest, n / 10);
      assert Digits(n) + rest == Digits(n / 10) + (last + rest);
    }
  }

  lemma FractionReadsBack(whole: nat, a: nat, b: nat)
    requires a < 10 && b < 10
    ensures ReadWhole(FractionText(a, b), whole) == Some(100 * whole + 10 * a + b)
  {
    if b > 0 {
      assert ['.', Digit(a), Digit(b)][1..] == [Digit(a), Digit(b)];
    } else if a > 0 {
      assert ['.', Digit(a)][1..] == [Digit(a)];
    }
  }

  lemma DecimalSplit(n: nat)
    ensures n == 100 * (n / 100) + 10 * (n / 10 % 10) + n % 10
  {
  }

  lemma PartsReadBack(q: nat, a: nat, b: nat)
    requires a < 10 && b < 10
    ensures ReadWhole(Digits(q) + FractionText(a, b), 0) == Some(100 * q + 10 * a + b)
  {
    DigitsReadBack(q, FractionText(a, b));
    FractionReadsBack(q, a, b);
  }

  lemma {:induction false} DigitsAreDigits(n: nat)
    ensures forall i :: 0 <= i < |Digits(n)| ==> IsDigit(Digits(n)[i])
  {
    if n < 10 {
    } else {
      DigitsAreDigits(n / 10);
    }
  }

  /** A whole rate is shown without a point, and any other without a zero at its end. */
  lemma FormatIsShort(centisat: nat)
    ensures var s := FormatSatVb(centisat);
            && s != "" && ('.' in s <==> centisat % 100 != 0)
            && s[|s| - 1] != '.' && (centisat % 100 != 0 ==> s[|s| - 1] != '0')
  {
    var whole, fraction := Digits(centisat / 100), FractionText(centisat / 10 % 10, centisat % 10);
    DigitsAreDigits(centisat / 100);
    assert centisat % 100 == 10 * (centisat / 10 % 10) + centisat % 10;
    assert fraction == "" <==> centisat % 100 == 0;
    if fraction != "" {
      assert fraction[0] == '.' && FormatSatVb(centisat)[|whole|] == '.';
    }
  }

  /** The displayed text determines the rate: no two rates are ever shown alike. */
  lemma FormatReadsBack(centisat: nat)
    ensures ReadSatVb(FormatSatVb(centisat)) == Some(centisat)
  {
    PartsReadBack(centisat / 100, centisat / 10 % 10, centisat % 10);
    DecimalSplit(centisat);
  }
}
