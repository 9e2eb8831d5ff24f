/**
 The bids that are served (src/localwallet/chain/fees.py), said over what the endpoints answered: in each of the
 three shapes a refresh can take, the value of every bid, and when a refresh fails.
 */
module FeeBids {
  import opened Basics
  import opened Fees

  // ---------------------------------------------------------------- the relay floor

  /** The figure of the source asked, where it gives one above the assumed floor, and the assumed floor otherwise. */
  predicate FloorOf(a: FloorAnswer, floor: int) {
    if a.Figure? && a.value > 10 then floor == a.value else floor == 10
  }

  /** A young cached floor is given again; otherwise the wired wallet is asked, and without one the fee source. */
  lemma FloorResolvedExactly(st: State, ttl: real, now: real, w: World)
    ensures var (after, floor, at) := RelayFloor(st, ttl, now, w);
            if st.floorCache.Some? && now < st.floorCache.value.1 + ttl then
              after == st && (floor, at) == st.floorCache.value
            else
              && (st.walletWired ==> FloorOf(w.walletFloor, floor))
              && (!st.walletWired ==> FloorOf(w.ownFloor, floor))
              && at == now && after == st.(floorCache := Some((floor, now)), log := st.log + [Queried(now)])
  {
  }

  /** After re-pointing, the very next clamp asks the wallet that was wired, or the fee source when it was unwired. */
  lemma RepointedFloorIsAsked(st: State, ttl: real, hasJson: bool, wired: bool, rate: nat, w: World)
    ensures var after := StepCall(StepCall(st, ttl, hasJson, RepointCall(wired)), ttl, hasJson, ClampCall(rate, w));
            after.floorCache.Some? &&
            FloorOf(if wired then w.walletFloor else w.ownFloor, after.floorCache.value.0)
  {
    FloorResolvedExactly(StepCall(st, ttl, hasJson, RepointCall(wired)), ttl, w.floorNow, w);
  }

  // ---------------------------------------------------------------- what the endpoints answered

  predicate AboveZero(f: Field) {
    f.Whole? && f.value > 0
  }

  /** The congestion figures are usable: five whole numbers above zero. */
  predicate NamesFees(a: Fetch<RecommendedPayload>) {
    && a.Payload? && a.payload.FeeObject?
    && AboveZero(a.payload.fastest) && AboveZero(a.payload.halfHour) && AboveZero(a.payload.hour)
    && AboveZero(a.payload.economy) && AboveZero(a.payload.minimum)
  }

  predicate NamesFee(a: Fetch<Field>) {
    a.Payload? && AboveZero(a.payload)
  }

  predicate NamesBottom(e: Entry) {
    e.FeeRange? && e.bottom.Num? && 0.0 < e.bottom.value <= 10000.0
  }

  /** The projected blocks are usable: at least one, each with a bottom, a deeper one never above a nearer one. */
  predicate Projects(a: Fetch<Blocks>) {
    && a.Payload? && a.payload.BlockList? && a.payload.entries != []
    && (forall i :: 0 <= i < |a.payload.entries| ==> NamesBottom(a.payload.entries[i]))
    && forall i, j :: 0 <= i < j < |a.payload.entries| ==>
         NamesBottom(a.payload.entries[i]) && NamesBottom(a.payload.entries[j]) &&
         a.payload.entries[j].bottom.value <= a.payload.entries[i].bottom.value
  }

  /** The bottom of the i-th projected block. */
  function BottomAt(a: Fetch<Blocks>, i: nat): real
    requires Projects(a) && i < |a.payload.entries|
  {
    assert NamesBottom(a.payload.entries[i]);
    a.payload.entries[i].bottom.value
  }

  /** The bottoms of the first six projected blocks, or of as many as there are. */
  function SixHours(a: Fetch<Blocks>): seq<real>
    requires Projects(a)
  {
    seq(Min(6, |a.payload.entries|), i requires 0 <= i < Min(6, |a.payload.entries|) => BottomAt(a, i))
  }

  lemma EntriesNameBottoms(e: Entry)
    ensures NamesBottom(e) <==> EntryBottom(e).Some?
    ensures NamesBottom(e) ==> EntryBottom(e) == Some(e.bottom.value)
  {
  }

  lemma ProjectsExactly(hasJson: bool, w: World)
    ensures FromBlocks(hasJson, w) <==> hasJson && Projects(w.blocks)
    ensures FromBlocks(hasJson, w) ==>
              Bottoms(w.blocks.payload)[..Min(SIX_HOUR_BLOCKS, |w.blocks.payload.entries|)] == SixHours(w.blocks)
  {
    if w.blocks.Payload? && w.blocks.payload.BlockList? {
      forall i | 0 <= i < |w.blocks.payload.entries|
        ensures NamesBottom(w.blocks.payload.entries[i]) <==> EntryBottom(w.blocks.payload.entries[i]).Some?
      {
        EntriesNameBottoms(w.blocks.payload.entries[i]);
      }
    }
  }

  // ---------------------------------------------------------------- the bids

  /** The three bids, and which of them the floor raised. */
  predicate Bids(s: Snapshot, fast: int, medium: int, slow: int, floor: int) {
    && s.fast.rate == Max(fast, floor) && s.medium.rate == Max(medium, floor) && s.slow.rate == Max(slow, floor)
    && (s.fast.clamped <==> fast < floor) && (s.medium.clamped <==> medium < floor)
    && (s.slow.clamped <==> slow < floor)
  }

  /** From projected blocks: double the markup, the markup, the second block's bottom; the first one is a floor. */
  predicate BlockBids(w: World, relay: int, s: Snapshot)
    requires Projects(w.blocks)
  {
    var b0 := BottomAt(w.blocks, 0);
    var b1 := if |w.blocks.payload.entries| > 1 then BottomAt(w.blocks, 1) else b0;
    var floor := Max(Max(Round(100.0 * b0, Ceiling), relay), 10);
    var markup := Round(115.0 * b0, HalfEven);
    && s.fast.rate == Max(2 * markup, floor) && s.medium.rate == Max(markup, floor) && s.slow.rate == floor
    && (s.slow.clamped <==> Round(100.0 * b1, Ceiling) < floor)
    && s.nextBlockFloor == Some(Round(100.0 * b0, Ceiling))
    && s.averageLow == Some(Round(100.0 * (Sum(SixHours(w.blocks)) / |SixHours(w.blocks)| as real), HalfEven))
    && !s.native && s.fast.source == s.medium.source == s.slow.source == FloorFollower
  }

  /** From the congestion figures: each its own, over the stated minimum. */
  predicate FallbackBids(w: World, relay: int, s: Snapshot)
    requires NamesFees(w.recommended)
  {
    var p := w.recommended.payload;
    && Bids(s, 100 * p.fastest.value, 100 * p.halfHour.value, 100 * p.hour.value,
            Max(Max(100 * p.minimum.value, relay), 10))
    && s.nextBlockFloor == None && s.averageLow == None && !s.native
    && s.fast.source == s.medium.source == s.slow.source == Recommended
  }

  /** From a backend's own estimates: each its own, over the relay floor alone. */
  predicate NativeOnly(w: World, relay: int, s: Snapshot)
    requires NamesFee(w.nativeFast) && NamesFee(w.nativeMedium) && NamesFee(w.nativeSlow)
  {
    && Bids(s, 100 * w.nativeFast.payload.value, 100 * w.nativeMedium.payload.value,
            100 * w.nativeSlow.payload.value, Max(relay, 10))
    && s.nextBlockFloor == None && s.averageLow == None && s.native
    && s.fast.source == s.medium.source == s.slow.source == Recommended
  }

  /** There is enough of an answer to bid from. */
  predicate CanBid(hasJson: bool, w: World) {
    if hasJson then NamesFees(w.recommended)
    else NamesFee(w.nativeFast) && NamesFee(w.nativeMedium) && NamesFee(w.nativeSlow)
  }

  /** The bids of a refresh in whichever of the three shapes applies, fetched now. */
  predicate BidsAre(hasJson: bool, w: World, relay: int, s: Snapshot)
    requires CanBid(hasJson, w)
  {
    && s.fetchedAt == w.now
    && s.fast.timestamp == s.medium.timestamp == s.slow.timestamp == w.now
    && if !hasJson then NativeOnly(w, relay, s)
       else
         && s.minimumFee == w.recommended.payload.minimum.value
         && if Projects(w.blocks) then BlockBids(w, relay, s) else FallbackBids(w, relay, s)
  }

  lemma NamesFeesExactly(a: Fetch<RecommendedPayload>, now: real)
    ensures NamesFees(a) <==> a.Payload? && ParseRecommended(a.payload, now).Some?
  {
  }

  lemma CanBidExactly(hasJson: bool, w: World)
    ensures CanBid(hasJson, w) <==> Derived(hasJson, w).Some?
  {
    NamesFeesExactly(w.recommended, w.now);
  }

  lemma BlockBidsServed(w: World, relay: int)
    requires NamesFees(w.recommended) && Projects(w.blocks)
    ensures var derived := Derived(true, w);
            && derived.Some? && derived.value.minimumFee == w.recommended.payload.minimum.value
            && BlockBids(w, relay, ApplyFloor(derived.value, Max(SnapshotFloor(derived.value), relay)))
  {
    ProjectsExactly(true, w);
    var bottoms := Bottoms(w.blocks.payload);
    assert bottoms[0] == BottomAt(w.blocks, 0);
    assert |bottoms| > 1 ==> bottoms[1] == BottomAt(w.blocks, 1);
    TargetFollowerClosedForm(bottoms, w.recommended.payload.minimum.value, w.now, relay);
  }

  lemma FallbackBidsServed(w: World, relay: int)
    requires NamesFees(w.recommended) && !Projects(w.blocks)
    ensures var derived := Derived(true, w);
            && derived.Some? && derived.value.minimumFee == w.recommended.payload.minimum.value
            && FallbackBids(w, relay, ApplyFloor(derived.value, Max(SnapshotFloor(derived.value), relay)))
  {
    ProjectsExactly(true, w);
  }

  lemma NativeBidsServed(w: World, relay: int)
    requires CanBid(false, w)
    ensures var derived := Derived(false, w);
            derived.Some? && NativeOnly(w, relay, ApplyFloor(derived.value, Max(SnapshotFloor(derived.value), relay)))
  {
  }

  /**
   One call, in full. A young cache is served as it is. Otherwise the call fails, with nothing changed, exactly when
   there is too little to bid from, and else it serves and caches the bids of these answers over the relay floor
   resolved in this very call.
   */
  lemma RefreshServesExactly(st: State, ttl: real, hasJson: bool, w: World)
    ensures var (after, served) := Refresh(st, ttl, hasJson, w);
            if st.cache.Some? && w.now < st.cache.value.fetchedAt + ttl then after == st && served == st.cache
            else if !CanBid(hasJson, w) then after == st && served == None
            else
              && served.Some? && after.cache == served
              && BidsAre(hasJson, w, RelayFloor(st, ttl, w.floorNow, w).1, served.value)
  {
    CanBidExactly(hasJson, w);
    if CanBid(hasJson, w) {
      var relay := RelayFloor(st, ttl, w.floorNow, w).1;
      if !hasJson {
        NativeBidsServed(w, relay);
      } else if Projects(w.blocks) {
        BlockBidsServed(w, relay);
      } else {
        FallbackBidsServed(w, relay);
      }
    }
  }

  /** The k-th call of the run resolved the relay floor and stored the bids of its own answers. */
  ghost predicate BidAt(st: State, ttl: real, hasJson: bool, calls: seq<Call>, k: nat, s: Snapshot) {
    && k < |calls| && calls[k].EstimateCall? && CanBid(hasJson, calls[k].w)
    && var before := RunCalls(st, ttl, hasJson, calls[..k]);
       BidsAre(hasJson, calls[k].w, RelayFloor(before, ttl, calls[k].w.floorNow, calls[k].w).1, s)
  }

  /** Whatever any call of any run is served are the bids of one refresh of that run. */
  lemma ServedBidsAreARefreshs(ttl: real, hasJson: bool, wired: bool, calls: seq<Call>, w: World)
    ensures var st := NO_STATE.(walletWired := wired);
            var served := Refresh(RunCalls(st, ttl, hasJson, calls), ttl, hasJson, w).1;
            served.Some? ==> exists k: nat :: BidAt(st, ttl, hasJson, calls + [EstimateCall(w)], k, served.value)
  {
    var st := NO_STATE.(walletWired := wired);
    var served := Refresh(RunCalls(st, ttl, hasJson, calls), ttl, hasJson, w).1;
    ServedLadderExactly(ttl, hasJson, wired, calls, w);
    if served.Some? {
      var all := calls + [EstimateCall(w)];
      var k: nat :| StoredInOrder(st, ttl, hasJson, all, k, served.value);
      RefreshServesExactly(RunCalls(st, ttl, hasJson, all[..k]), ttl, hasJson, all[k].w);
      assert BidAt(st, ttl, hasJson, all, k, served.value);
    }
  }
}
