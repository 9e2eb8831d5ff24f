/**
 Incoming-transaction watching (src/localwallet/chain/watch.py): events are surfaced exactly once, whatever
 way the observations are cut into poll cycles.
 */
module Watch {
  import opened Basics

  type Txid = string

  datatype WatchedTx = WatchedTx(
    txid: Txid, incoming: bool, confirmed: bool, height: Option<int>, blockTime: Option<int>,
    address: Option<string>, amount: Option<int>)

  datatype Kind = Received | Confirmed

  datatype Event = Event(
    kind: Kind, txid: Txid, address: string, amount: int, confirmed: bool, height: Option<int>, blockTime: Option<int>)

  predicate Surfaceable(tx: WatchedTx) {
    tx.address.Some? && tx.amount.Some?
  }

  function EventOf(kind: Kind, tx: WatchedTx, confirmed: bool): seq<Event> {
    if Surfaceable(tx) then
      [Event(kind, tx.txid, tx.address.value, tx.amount.value, confirmed, tx.height, tx.blockTime)]
    else []
  }

  /** txid to the confirmed flag of the last state taken note of. */
  type Seen = map<Txid, bool>

  // ---------------------------------------------------------------- what a run of observations means

  predicate Sights(tx: WatchedTx, t: Txid, settled: bool) {
    tx.incoming && tx.txid == t && (settled ==> tx.confirmed)
  }

  predicate IsFirst(obs: seq<WatchedTx>, t: Txid, settled: bool, i: nat) {
    && i <= |obs|
    && (i < |obs| ==> Sights(obs[i], t, settled))
    && forall j :: 0 <= j < i ==> !Sights(obs[j], t, settled)
  }

  lemma {:induction false} FirstExists(obs: seq<WatchedTx>, t: Txid, settled: bool)
    ensures exists i: nat :: IsFirst(obs, t, settled, i)
  {
    if obs == [] {
      assert IsFirst(obs, t, settled, 0);
    } else {
      var init := obs[..|obs| - 1];
      FirstExists(init, t, settled);
      var i: nat :| IsFirst(init, t, settled, i);
      assert IsFirst(obs, t, settled, i) || IsFirst(obs, t, settled, i + 1);
    }
  }

  /** Position of the first incoming sighting (confirmed, if `settled`) of a transaction; the length if none. */
  ghost function First(obs: seq<WatchedTx>, t: Txid, settled: bool): (i: nat)
    ensures IsFirst(obs, t, settled, i)
  {
    FirstExists(obs, t, settled);
    var i: nat :| IsFirst(obs, t, settled, i);
    i
  }

  ghost function FirstSeen(obs: seq<WatchedTx>, t: Txid): nat {
    First(obs, t, false)
  }

  ghost function FirstConfirmed(obs: seq<WatchedTx>, t: Txid): nat {
    First(obs, t, true)
  }

  /** The event that observation `i` gives rise to, read off the observations alone. */
  ghost function EventAt(obs: seq<WatchedTx>, i: nat): seq<Event>
    requires i < |obs|
  {
    var tx := obs[i];
    if !tx.incoming then []
    else if FirstSeen(obs, tx.txid) == i then EventOf(Received, tx, tx.confirmed)
    else if FirstConfirmed(obs, tx.txid) == i then EventOf(Confirmed, tx, true)
    else []
  }

  ghost function EventsUpTo(obs: seq<WatchedTx>, n: nat): seq<Event>
    requires n <= |obs|
  {
    if n == 0 then [] else EventsUpTo(obs, n - 1) + EventAt(obs, n - 1)
  }

  /** Everything surfaced over a run of observations. */
  ghost function Surfaced(obs: seq<WatchedTx>): seq<Event> {
    EventsUpTo(obs, |obs|)
  }

  /** The memory holds exactly the incoming txids, each with "some incoming observation of it was confirmed". */
  ghost predicate Remembers(seen: Seen, obs: seq<WatchedTx>) {
    forall t ::
      && (t in seen <==> FirstSeen(obs, t) < |obs|)
      && (t in seen ==> (seen[t] <==> FirstConfirmed(obs, t) < |obs|))
  }

  lemma FirstUnique(obs: seq<WatchedTx>, t: Txid, settled: bool, i: nat)
    requires IsFirst(obs, t, settled, i)
    ensures First(obs, t, settled) == i
  {
    var k := First(obs, t, settled);
    assert k < |obs| ==> Sights(obs[k], t, settled);
    assert i < |obs| ==> Sights(obs[i], t, settled);
  }

  /** A first position inside a prefix stays; one past it stays past it. */
  lemma FirstPrefixStable(obs: seq<WatchedTx>, more: seq<WatchedTx>, t: Txid, settled: bool)
    ensures First(obs, t, settled) < |obs| ==> First(obs + more, t, settled) == First(obs, t, settled)
    ensures First(obs, t, settled) == |obs| ==> First(obs + more, t, settled) >= |obs|
  {
    var all, i, k := obs + more, First(obs, t, settled), First(obs + more, t, settled);
    assert forall j :: 0 <= j < |obs| ==> all[j] == obs[j];
    if i < |obs| {
      assert IsFirst(all, t, settled, i);
      FirstUnique(all, t, settled, i);
    }
    assert k < |obs| ==> Sights(obs[k], t, settled);
  }

  lemma SeenBeforeConfirmed(obs: seq<WatchedTx>, t: Txid)
    ensures FirstSeen(obs, t) <= FirstConfirmed(obs, t)
  {
    var i, k := First(obs, t, false), First(obs, t, true);
    if k < |obs| {
      assert Sights(obs[k], t, false);
    }
  }

  lemma {:induction false} EventsArePrefixStable(obs: seq<WatchedTx>, more: seq<WatchedTx>, n: nat)
    requires n <= |obs|
    ensures EventsUpTo(obs + more, n) == EventsUpTo(obs, n)
  {
    if n == 0 {
    } else {
      EventsArePrefixStable(obs, more, n - 1);
      FirstPrefixStable(obs, more, obs[n - 1].txid, false);
      FirstPrefixStable(obs, more, obs[n - 1].txid, true);
      assert (obs + more)[n - 1] == obs[n - 1];
    }
  }

  // ---------------------------------------------------------------- one observation

  /** How the watcher's memory moves on one observation, and what it surfaces. */
  function Noted(seen: Seen, tx: WatchedTx): Seen {
    if tx.incoming && (tx.txid !in seen || (!seen[tx.txid] && tx.confirmed)) then seen[tx.txid := tx.confirmed] else seen
  }

  function NewEvent(seen: Seen, tx: WatchedTx): seq<Event> {
    if !tx.incoming then []
    else if tx.txid !in seen then EventOf(Received, tx, tx.confirmed)
    else if !seen[tx.txid] && tx.confirmed then EventOf(Confirmed, tx, true)
    else []
  }

  lemma FirstAfterOneMore(obs: seq<WatchedTx>, tx: WatchedTx, t: Txid, settled: bool)
    ensures First(obs + [tx], t, settled) ==
            (if First(obs, t, settled) < |obs| || Sights(tx, t, settled) then First(obs, t, settled) else |obs| + 1)
  {
    var all, i := obs + [tx], First(obs, t, settled);
    assert all[|obs|] == tx && forall j :: 0 <= j < |obs| ==> all[j] == obs[j];
    var k := if i < |obs| || Sights(tx, t, settled) then i else |obs| + 1;
    assert IsFirst(all, t, settled, k);
    FirstUnique(all, t, settled, k);
  }

  lemma OneObservationRemembered(seen: Seen, obs: seq<WatchedTx>, tx: WatchedTx)
    requires Remembers(seen, obs)
    ensures Remembers(Noted(seen, tx), obs + [tx])
  {
    forall t
      ensures var seen' := Noted(seen, tx);
              && (t in seen' <==> FirstSeen(obs + [tx], t) < |obs| + 1)
              && (t in seen' ==> (seen'[t] <==> FirstConfirmed(obs + [tx], t) < |obs| + 1))
    {
      FirstAfterOneMore(obs, tx, t, false);
      FirstAfterOneMore(obs, tx, t, true);
      SeenBeforeConfirmed(obs, t);
    }
  }

  lemma LastEventIsNew(seen: Seen, obs: seq<WatchedTx>, tx: WatchedTx)
    requires Remembers(seen, obs)
    ensures EventAt(obs + [tx], |obs|) == NewEvent(seen, tx)
  {
    assert (obs + [tx])[|obs|] == tx;
    FirstAfterOneMore(obs, tx, tx.txid, false);
    FirstAfterOneMore(obs, tx, tx.txid, true);
    SeenBeforeConfirmed(obs, tx.txid);
  }

  lemma OneObservationSurfaced(seen: Seen, obs: seq<WatchedTx>, tx: WatchedTx)
    requires Remembers(seen, obs)
    ensures Surfaced(obs + [tx]) == Surfaced(obs) + NewEvent(seen, tx)
  {
    EventsArePrefixStable(obs, [tx], |obs|);
    LastEventIsNew(seen, obs, tx);
  }

  function NotedAll(seen: Seen, probe: seq<WatchedTx>): Seen {
    if probe == [] then seen else Noted(NotedAll(seen, probe[..|probe| - 1]), probe[|probe| - 1])
  }

  function NewEvents(seen: Seen, probe: seq<WatchedTx>): seq<Event> {
    if probe == [] then []
    else NewEvents(seen, probe[..|probe| - 1]) +
         NewEvent(NotedAll(seen, probe[..|probe| - 1]), probe[|probe| - 1])
  }

  lemma Assoc<T>(a: seq<T>, b: seq<T>, c: seq<T>)
    ensures a + b + c == a + (b + c)
  {
  }

  lemma {:induction false} ProbeRemembered(seen: Seen, obs: seq<WatchedTx>, probe: seq<WatchedTx>)
    requires Remembers(seen, obs)
    ensures Remembers(NotedAll(seen, probe), obs + probe)
    decreases |probe|
  {
    if probe == [] {
      assert obs + probe == obs;
    } else {
      var init, last := probe[..|probe| - 1], probe[|probe| - 1];
      ProbeRemembered(seen, obs, init);
      assert obs + init + [last] == obs + probe;
      OneObservationRemembered(NotedAll(seen, init), obs + init, last);
    }
  }

  /** One poll cycle's pass over its probe adds exactly what the longer run of observations surfaces in addition. */
  lemma {:induction false} ProbeSurfaced(seen: Seen, obs: seq<WatchedTx>, probe: seq<WatchedTx>)
    requires Remembers(seen, obs)
    ensures Surfaced(obs + probe) == Surfaced(obs) + NewEvents(seen, probe)
    decreases |probe|
  {
    if probe == [] {
      assert obs + probe == obs;
    } else {
      var init, last := probe[..|probe| - 1], probe[|probe| - 1];
      ProbeRemembered(seen, obs, init);
      OneObservationSurfaced(NotedAll(seen, init), obs + init, last);
      ProbeSurfaced(seen, obs, init);
      Assoc(obs, init, [last]);
      Assoc(Surfaced(obs), NewEvents(seen, init), NewEvent(NotedAll(seen, init), last));
      assert init + [last] == probe;
    }
  }

  // ---------------------------------------------------------------- one cycle, one mark

  /** A poll cycle: whether watching was on, and what the probe found. */
  datatype Cycle = Cycle(enabled: bool, probe: seq<WatchedTx>)

  function Cycled(seen: Seen, c: Cycle): (Seen, seq<Event>) {
    if c.enabled then (NotedAll(seen, c.probe), NewEvents(seen, c.probe)) else (seen, [])
  }

  /** Marking a poll's outcome: the new flag, and whether this outcome is an edge. */
  function Marked(failed: bool, succeeded: bool): (bool, bool) {
    (!succeeded, failed == succeeded)
  }

  // ---------------------------------------------------------------- the watcher

  class IncomingWatcher {
    var seen: Seen
    var interval: real
    var pollFailed: bool
    var lastTickAt: real
    ghost var observed: seq<WatchedTx>

    /** The memory is a function of the incoming observations made while watching was on. */
    ghost predicate Valid()
      reads this
    {
      Remembers(seen, observed)
    }

    constructor (interval: real, now: real)
      ensures Valid() && observed == [] && !pollFailed && this.interval == interval && lastTickAt == now
    {
      seen, pollFailed := map[], false;
      this.interval, lastTickAt := interval, now;
      observed := [];
    }

    predicate Enabled()
      reads this
    {
      interval > 0.0
    }

    /** Rebinding keeps the memory and does not move the time of the last poll. */
    method SetInterval(interval: real)
      requires Valid()
      modifies this`interval
      ensures Valid() && this.interval == interval
    {
      this.interval := interval;
    }

    method PollDue(now: real) returns (due: bool)
      ensures due <==> Enabled() && now - lastTickAt >= interval
    {
      if !Enabled() {
        return false;
      }
      return now - lastTickAt >= interval;
    }

    method MarkPollFailed() returns (starts: bool)
      modifies this`pollFailed
      ensures (pollFailed, starts) == Marked(old(pollFailed), false)
      ensures pollFailed && (starts <==> !old(pollFailed))
    {
      if pollFailed {
        return false;
      }
      pollFailed := true;
      return true;
    }

    method MarkPollSucceeded() returns (ended: bool)
      modifies this`pollFailed
      ensures (pollFailed, ended) == Marked(old(pollFailed), true)
      ensures !pollFailed && (ended <==> old(pollFailed))
    {
      ended := pollFailed;
      pollFailed := false;
    }

    /** One poll cycle surfaces exactly what its observations add to the events of everything observed. */
    method Tick(now: real, probe: seq<WatchedTx>) returns (events: seq<Event>)
      requires Valid()
      modifies this`seen, this`lastTickAt, this`observed
      ensures Valid() && lastTickAt == now
      ensures observed == if Enabled() then old(observed) + probe else old(observed)
      ensures (seen, events) == Cycled(old(seen), Cycle(Enabled(), probe))
      ensures Surfaced(observed) == old(Surfaced(observed)) + events
    {
      lastTickAt := now;
      events := [];
      if !Enabled() {
        return;
      }
      for i := 0 to |probe|
        invariant observed == old(observed) && lastTickAt == now
        invariant seen == NotedAll(old(seen), probe[..i]) && events == NewEvents(old(seen), probe[..i])
      {
        var tx := probe[i];
        assert probe[..i + 1][..i] == probe[..i];
        if tx.incoming {
          if tx.txid !in seen {
            seen := seen[tx.txid := tx.confirmed];
            if tx.address.Some? && tx.amount.Some? {
              events := events + [Event(Received, tx.txid, tx.address.value, tx.amount.value, tx.confirmed,
                                        tx.height, tx.blockTime)];
            }
          } else if !seen[tx.txid] && tx.confirmed {
            seen := seen[tx.txid := true];
            if tx.address.Some? && tx.amount.Some? {
              events := events + [Event(Confirmed, tx.txid, tx.address.value, tx.amount.value, true,
                                        tx.height, tx.blockTime)];
            }
          }
        }
      }
      assert probe[..|probe|] == probe;
      ProbeRemembered(old(seen), observed, probe);
      ProbeSurfaced(old(seen), observed, probe);
      observed := observed + probe;
    }
  }

  // ---------------------------------------------------------------- theorems over every run

  function CountEvents(events: seq<Event>, kind: Kind, t: Txid): nat {
    if events == [] then 0
    else CountEvents(events[..|events| - 1], kind, t) +
         (if events[|events| - 1].kind == kind && events[|events| - 1].txid == t then 1 else 0)
  }

  lemma CountAppended(events: seq<Event>, more: seq<Event>, kind: Kind, t: Txid)
    requires |more| <= 1
    ensures CountEvents(events + more, kind, t) == CountEvents(events, kind, t) + CountEvents(more, kind, t)
  {
    if more == [] {
      assert events + more == events;
    } else {
      assert (events + more)[..|events|] == events;
      assert more[..0] == [];
    }
  }

  /** Where the one event of a kind can arise: the first sighting, or a later first confirmed one. */
  ghost function Occasion(obs: seq<WatchedTx>, kind: Kind, t: Txid): nat {
    if kind.Received? then FirstSeen(obs, t)
    else if FirstSeen(obs, t) < FirstConfirmed(obs, t) then FirstConfirmed(obs, t)
    else |obs|
  }

  lemma CountOfEvent(obs: seq<WatchedTx>, i: nat, kind: Kind, t: Txid)
    requires i < |obs|
    ensures |EventAt(obs, i)| <= 1
    ensures CountEvents(EventAt(obs, i), kind, t) == (if Occasion(obs, kind, t) == i && Surfaceable(obs[i]) then 1 else 0)
  {
    var event := EventAt(obs, i);
    SeenBeforeConfirmed(obs, t);
    if event != [] {
      assert event[..0] == [];
    }
  }

  lemma OneEventAtMost(obs: seq<WatchedTx>, i: nat)
    requires i < |obs|
    ensures |EventAt(obs, i)| <= 1
  {
  }

  lemma CountPieces(all: seq<Event>, before: seq<Event>, event: seq<Event>, kind: Kind, t: Txid)
    requires all == before + event && |event| <= 1
    ensures CountEvents(all, kind, t) == CountEvents(before, kind, t) + CountEvents(event, kind, t)
  {
    CountAppended(before, event, kind, t);
  }

  ghost function Counted(obs: seq<WatchedTx>, n: nat, kind: Kind, t: Txid): nat {
    if n <= |obs| then CountEvents(EventsUpTo(obs, n), kind, t) else 0
  }

  lemma CountStep(obs: seq<WatchedTx>, n: nat, kind: Kind, t: Txid)
    requires n < |obs|
    ensures Counted(obs, n + 1, kind, t) == Counted(obs, n, kind, t) + CountEvents(EventAt(obs, n), kind, t)
  {
    var before, event := EventsUpTo(obs, n), EventAt(obs, n);
    OneEventAtMost(obs, n);
    CountPieces(EventsUpTo(obs, n + 1), before, event, kind, t);
  }

  lemma {:induction false} StepsAddUp(count: nat -> nat, n: nat, i: nat, ok: bool)
    requires count(0) == 0 && forall m: nat :: m < n ==> count(m + 1) == count(m) + (if m == i && ok then 1 else 0)
    ensures count(n) == if i < n && ok then 1 else 0
  {
    if n == 0 {
    } else {
      StepsAddUp(count, n - 1, i, ok);
      assert count(n - 1 + 1) == count(n - 1) + (if n - 1 == i && ok then 1 else 0);
    }
  }

  lemma CountStepIs(obs: seq<WatchedTx>, n: nat, kind: Kind, t: Txid, i: nat, ok: bool)
    requires n < |obs| && i == Occasion(obs, kind, t) && (ok <==> i < |obs| && Surfaceable(obs[i]))
    ensures Counted(obs, n + 1, kind, t) == Counted(obs, n, kind, t) + (if n == i && ok then 1 else 0)
  {
    CountStep(obs, n, kind, t);
    CountOfEvent(obs, n, kind, t);
  }

  /**
   Exactly once, and exactly when. A transaction is surfaced as received exactly when its first incoming sighting
   carried an address and an amount, and as confirmed exactly when that sighting was unconfirmed and its first
   confirmed one carried them; at most one event of each kind in any run.
   */
  lemma ExactlyOnce(obs: seq<WatchedTx>, n: nat, kind: Kind, t: Txid)
    requires n <= |obs|
    ensures var i := Occasion(obs, kind, t);
            CountEvents(EventsUpTo(obs, n), kind, t) == (if i < n && Surfaceable(obs[i]) then 1 else 0)
  {
    var i := Occasion(obs, kind, t);
    var ok := i < |obs| && Surfaceable(obs[i]);
    ghost var count := (m: nat) => Counted(obs, m, kind, t);
    forall m: nat | m < n
      ensures count(m + 1) == count(m) + (if m == i && ok then 1 else 0)
    {
      CountStepIs(obs, m, kind, t, i, ok);
    }
    assert Counted(obs, 0, kind, t) == 0;
    StepsAddUp(count, n, i, ok);
    assert count(n) == Counted(obs, n, kind, t);
  }

  /** The event is what the watcher saw on its occasion, and that was a sighting with an address and an amount. */
  ghost predicate Tells(obs: seq<WatchedTx>, e: Event) {
    var i := Occasion(obs, e.kind, e.txid);
    && i < |obs|
    && var tx := obs[i];
       && tx.incoming && tx.txid == e.txid && tx.confirmed == e.confirmed
       && tx.address == Some(e.address) && tx.amount == Some(e.amount)
       && tx.height == e.height && tx.blockTime == e.blockTime
  }

  ghost function When(obs: seq<WatchedTx>, e: Event): nat {
    Occasion(obs, e.kind, e.txid)
  }

  /** At most one event, and one that tells the sighting at `i`. */
  ghost predicate TellsAt(obs: seq<WatchedTx>, events: seq<Event>, i: nat) {
    |events| <= 1 && forall e :: e in events ==> Tells(obs, e) && When(obs, e) == i
  }

  lemma EventTells(obs: seq<WatchedTx>, i: nat)
    requires i < |obs|
    ensures TellsAt(obs, EventAt(obs, i), i)
  {
    SeenBeforeConfirmed(obs, obs[i].txid);
    if First(obs, obs[i].txid, true) == i {
      assert Sights(obs[i], obs[i].txid, true);
    }
  }

  /** Every event tells its sighting, one among the first `n`, and events come in the order of their sightings. */
  ghost predicate TellInOrder(obs: seq<WatchedTx>, events: seq<Event>, n: nat) {
    && (forall a :: 0 <= a < |events| ==> Tells(obs, events[a]) && When(obs, events[a]) < n)
    && (forall a, b :: 0 <= b < a < |events| ==> When(obs, events[b]) < When(obs, events[a]))
  }

  lemma OneMoreTells(obs: seq<WatchedTx>, events: seq<Event>, more: seq<Event>, n: nat)
    requires TellInOrder(obs, events, n) && TellsAt(obs, more, n)
    ensures TellInOrder(obs, events + more, n + 1)
  {
    if more == [] {
      assert events + more == events;
    } else {
      assert more[0] in more;
      assert forall a :: 0 <= a < |events| ==> (events + more)[a] == events[a];
    }
  }

  ghost predicate ToldUpTo(obs: seq<WatchedTx>, n: nat)
    requires n <= |obs|
  {
    TellInOrder(obs, EventsUpTo(obs, n), n)
  }

  lemma OneMoreTold(obs: seq<WatchedTx>, n: nat)
    requires n < |obs| && ToldUpTo(obs, n)
    ensures ToldUpTo(obs, n + 1)
  {
    var init, last := EventsUpTo(obs, n), EventAt(obs, n);
    assert EventsUpTo(obs, n + 1) == init + last;
    EventTells(obs, n);
    OneMoreTells(obs, init, last, n);
  }

  lemma {:induction false} EventsTellTheirSightings(obs: seq<WatchedTx>, n: nat)
    requires n <= |obs|
    ensures ToldUpTo(obs, n)
  {
    if n == 0 {
    } else {
      EventsTellTheirSightings(obs, n - 1);
      OneMoreTold(obs, n - 1);
    }
  }

  /**
   A confirmed event does not always follow a received one: it comes alone exactly when the first sighting,
   unconfirmed, lacked an address or an amount and the first confirmed one had both.
   */
  lemma ConfirmedAlone(obs: seq<WatchedTx>, t: Txid)
    ensures var first, settled := FirstSeen(obs, t), FirstConfirmed(obs, t);
            var events := Surfaced(obs);
            CountEvents(events, Confirmed, t) == 1 && CountEvents(events, Received, t) == 0 <==>
            first < settled < |obs| && !Surfaceable(obs[first]) && Surfaceable(obs[settled])
  {
    ExactlyOnce(obs, |obs|, Received, t);
    ExactlyOnce(obs, |obs|, Confirmed, t);
    SeenBeforeConfirmed(obs, t);
  }

  lemma ConfirmedCanComeAlone()
    ensures var bare := WatchedTx("t", true, false, None, None, None, None);
            var full := WatchedTx("t", true, true, Some(7), None, Some("a"), Some(5));
            var events := Surfaced([bare, full]);
            CountEvents(events, Confirmed, "t") == 1 && CountEvents(events, Received, "t") == 0
  {
    var bare := WatchedTx("t", true, false, None, None, None, None);
    var full := WatchedTx("t", true, true, Some(7), None, Some("a"), Some(5));
    var obs := [bare, full];
    assert obs[0] == bare && obs[1] == full;
    FirstUnique(obs, "t", false, 0);
    FirstUnique(obs, "t", true, 1);
    ConfirmedAlone(obs, "t");
  }

  /** A run of cycles from an empty memory: what is remembered, what was answered in all, what was observed. */
  function SeenAfter(cycles: seq<Cycle>): Seen {
    if cycles == [] then map[] else Cycled(SeenAfter(cycles[..|cycles| - 1]), cycles[|cycles| - 1]).0
  }

  function Answers(cycles: seq<Cycle>): seq<Event> {
    if cycles == [] then []
    else
      Answers(cycles[..|cycles| - 1]) + Cycled(SeenAfter(cycles[..|cycles| - 1]), cycles[|cycles| - 1]).1
  }

  function Observations(cycles: seq<Cycle>): seq<WatchedTx> {
    if cycles == [] then []
    else
      Observations(cycles[..|cycles| - 1]) + (if cycles[|cycles| - 1].enabled then cycles[|cycles| - 1].probe else [])
  }

  lemma NothingRemembered()
    ensures Remembers(map[], []) && Surfaced([]) == []
  {
  }

  /**
   Every run of cycles, enabled or not, answers exactly the events of its observations, read off the observations
   alone, and remembers exactly the incoming transactions, each with whether one of its sightings was confirmed.
   */
  lemma {:induction false} RunsSurfaceTheirObservations(cycles: seq<Cycle>)
    ensures Remembers(SeenAfter(cycles), Observations(cycles))
    ensures Answers(cycles) == Surfaced(Observations(cycles))
    decreases |cycles|
  {
    if cycles == [] {
      NothingRemembered();
    } else {
      var init, last := cycles[..|cycles| - 1], cycles[|cycles| - 1];
      RunsSurfaceTheirObservations(init);
      if last.enabled {
        ProbeRemembered(SeenAfter(init), Observations(init), last.probe);
        ProbeSurfaced(SeenAfter(init), Observations(init), last.probe);
      } else {
        assert Observations(cycles) == Observations(init) && Answers(cycles) == Answers(init);
      }
    }
  }

  lemma OneMemory(a: Seen, b: Seen, obs: seq<WatchedTx>)
    requires Remembers(a, obs) && Remembers(b, obs)
    ensures a == b
  {
    forall t
      ensures t in a <==> t in b
      ensures t in a ==> (a[t] <==> b[t])
    {
      assert t in a <==> FirstSeen(obs, t) < |obs|;
    }
  }

  /** So the events and the memory do not depend on how the observations were split into cycles. */
  lemma EventsIgnoreTheSplit(a: seq<Cycle>, b: seq<Cycle>)
    requires Observations(a) == Observations(b)
    ensures Answers(a) == Answers(b) && SeenAfter(a) == SeenAfter(b)
  {
    RunsSurfaceTheirObservations(a);
    RunsSurfaceTheirObservations(b);
    OneMemory(SeenAfter(a), SeenAfter(b), Observations(a));
  }

  /** And over every run each transaction is surfaced at most once as received and at most once as confirmed. */
  lemma EachRunSurfacesOnce(cycles: seq<Cycle>, kind: Kind, t: Txid)
    ensures CountEvents(Answers(cycles), kind, t) <= 1
  {
    RunsSurfaceTheirObservations(cycles);
    ExactlyOnce(Observations(cycles), |Observations(cycles)|, kind, t);
  }

  /** What any run answers are its sightings: whole, in their order. */
  lemma EachRunTellsItsSightings(cycles: seq<Cycle>)
    ensures TellInOrder(Observations(cycles), Answers(cycles), |Observations(cycles)|)
  {
    RunsSurfaceTheirObservations(cycles);
    EventsTellTheirSightings(Observations(cycles), |Observations(cycles)|);
  }

  // ---------------------------------------------------------------- failure streaks

  datatype Edge = StreakStarts | StreakEnds

  /** The edges answered over a series of poll outcomes (true = the poll succeeded). */
  function Edges(failed: bool, polls: seq<bool>): seq<Edge>
    decreases |polls|
  {
    if polls == [] then []
    else
      var (now, edge) := Marked(failed, polls[0]);
      (if edge then [if polls[0] then StreakEnds else StreakStarts] else []) + Edges(now, polls[1..])
  }

  /** Start and end answers strictly alternate, and a new watcher answers a start first. */
  lemma {:induction false} EdgesAlternate(failed: bool, polls: seq<bool>, i: nat)
    requires i < |Edges(failed, polls)|
    ensures Edges(failed, polls)[i] == (if (i % 2 == 0) != failed then StreakStarts else StreakEnds)
    decreases |polls|
  {
    var rest := Edges(!polls[0], polls[1..]);
    if polls[0] == failed {
      assert Edges(failed, polls)[1..] == rest;
      if i > 0 {
        EdgesAlternate(!polls[0], polls[1..], i - 1);
      }
    } else {
      assert Edges(failed, polls) == rest;
      EdgesAlternate(!polls[0], polls[1..], i);
    }
  }
}
