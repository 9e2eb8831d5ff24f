/**
 What the Electrum adapter takes for an answer (src/localwallet/chain/electrum.py), said over the messages and the
 logged exchanges: when a handshake succeeds, what a request answers, and when an operation does.
 */
module ElectrumAnswers {
  import opened Basics
  import opened JsonValues
  import opened Electrum

  // ---------------------------------------------------------------- messages

  /** The id member is the number, whether written plainly, with a decimal point, or as a truth value. */
  lemma CarriesExactly(message: Json, id: nat)
    ensures Carries(message, id) <==>
              && message.JObj? && "id" in message.members
              && message.members["id"] in
                   {JInt(id), JReal(id as real)} + (if id == 1 then {JBool(true)} else {}) +
                   (if id == 0 then {JBool(false)} else {})
  {
  }

  /** What an error member may hold without being an error. */
  predicate NoError(message: Json) {
    Get(message, "error") in
      {JNull, JBool(false), JInt(0), JReal(0.0), JStr(""), JArr([]), JObj(map[])}
  }

  /** A message is the result of its request, or an error with the numeric code in it, if any. */
  lemma OutcomeReadExactly(message: Json, o: Outcome)
    ensures OutcomeOf(message) == o <==>
              match o
              case Value(json) => NoError(message) && json == Get(message, "result")
              case ServerError(Some(code)) =>
                !NoError(message) && Get(Get(message, "error"), "code") == JInt(code)
              case ServerError(None) =>
                !NoError(message) && !Get(Get(message, "error"), "code").JInt?
              case _ => false
  {
    var error := Get(message, "error");
    if error.JObj? && error.members.Keys == {} {
      assert error.members == map[];
    }
  }

  /** A request is answered by the first line with its id, and lost when it cannot be sent or no such line comes. */
  lemma RawAnswersExactly(env: Env, c: Client, m: Method)
    requires c.sock.Some?
    ensures var (after, outcome) := Raw(env, c, m);
            var id := c.nextId + 1;
            && (outcome.Lost? <==>
                  !env.sends(id) || AllSkipped(env.decode, Lines(c.pending), id, c.answered))
            && (outcome.BadStream? <==> env.sends(id) && c.answered && FirstGarbage(env.decode, c.pending, id))
            && (outcome.Value? || outcome.ServerError? ==>
                  exists message ::
                    FirstMatch(env.decode, c.pending, id, c.answered, message, after.pending) &&
                    OutcomeOf(message) == outcome && after.answered && after.sock == c.sock)
  {
    var id := c.nextId + 1;
    FirstLineWithTheId(env.decode, c.pending, id, c.answered);
    var lines := Lines(c.pending);
    match Answer(env.decode, c.pending, id, c.answered)
    case Silence =>
    case Garbled =>
      var k: nat :| GarbledAt(env.decode, c.pending, id, k);
      assert !Skipped(env.decode, lines[k], id, c.answered);
    case Match(message, rest) =>
      MatchIsNoGarbage(env.decode, c.pending, id, c.answered, message, rest);
      assert OutcomeOf(message) == Raw(env, c, m).1 || !env.sends(id);
  }

  lemma MatchIsNoGarbage(decode: Bytes -> Line, bytes: Bytes, id: nat, answered: bool, message: Json, rest: Bytes)
    requires FirstMatch(decode, bytes, id, answered, message, rest)
    ensures !AllSkipped(decode, Lines(bytes), id, answered)
    ensures answered ==> !FirstGarbage(decode, bytes, id)
  {
    var lines := Lines(bytes);
    var k: nat :| MatchedAt(decode, bytes, id, answered, message, rest, k);
    assert !Skipped(decode, lines[k], id, answered);
    if answered && FirstGarbage(decode, bytes, id) {
      var g: nat :| GarbledAt(decode, bytes, id, g);
      assert !Skipped(decode, lines[g], id, true);
    }
  }

  // ---------------------------------------------------------------- the handshake

  /** The version answer is a bare string or a list; what is in it is not looked at. */
  predicate VersionGood(o: Outcome) {
    o.Value? && (o.json.JStr? || o.json.JArr?)
  }

  predicate NamesMainnet(o: Outcome) {
    && o.Value? && o.json.JObj? && "genesis_hash" in o.json.members
    && o.json.members["genesis_hash"] ==
         JStr("000000000019d6689c085ae165831e934ff763ae46a2a6c172b3f1b60a8ce26f")
  }

  /** A relay fee is announced by a finite number, and by nothing else. */
  predicate Announces(env: Env, features: Json, fee: Option<real>) {
    match Get(features, "relayfee")
    case JInt(n) => fee == if env.fitsFloat(n) then Some(n as real) else None
    case JReal(r) => fee == Some(r)
    case _ => fee == None
  }

  /** The two exchanges of a finished handshake. */
  predicate HandshakeOf(log: seq<Exchange>, longer: seq<Exchange>, link: nat) {
    && |longer| == |log| + 2 && log <= longer
    && longer[|log|].link == longer[|log| + 1].link == link
    && longer[|log|].rpc == Version && VersionGood(longer[|log|].outcome)
    && longer[|log| + 1].rpc == Features && NamesMainnet(longer[|log| + 1].outcome)
  }

  /** The one exchange after which a handshake stops, and why. */
  predicate StoppedBy(e: Exchange, refused: Refusal) {
    match e.outcome
    case Lost => refused == Transport
    case BadStream => refused == StreamGarbled
    case ServerError(code) => refused == Rejected(code)
    case Value(_) =>
      (e.rpc == Version && !VersionGood(e.outcome) && refused == BadShape) ||
      (e.rpc == Features && !NamesMainnet(e.outcome) && refused == NotMainnet)
  }

  lemma HandshakeSucceedsExactly(env: Env, c: Client)
    requires c.sock.Some?
    ensures var (after, refused) := Handshake(env, c);
            && (refused.None? <==> HandshakeOf(c.log, after.log, c.sock.value))
            && (refused.None? ==>
                  after.sock == c.sock && Announces(env, after.log[|c.log| + 1].outcome.json, after.relayFee))
            && (refused.Some? ==> |c.log| < |after.log| && StoppedBy(after.log[|after.log| - 1], refused.value))
  {
    var (c1, version) := Raw(env, c, Version);
    assert c1.log[|c.log|] == Exchange(c.sock.value, c.nextId + 1, Version, version);
    if c1.sock.Some? {
      var (c2, features) := Raw(env, c1, Features);
      assert c2.log[|c.log| + 1] == Exchange(c1.sock.value, c1.nextId + 1, Features, features);
      assert c2.log[|c.log|] == c1.log[|c.log|];
    }
  }

  /**
   A dial succeeds exactly when the connection opens, the version request on it is answered with a string or a list,
   and then the features request with an object naming the mainnet genesis block.
   */
  lemma DialSucceedsExactly(env: Env, c: Client)
    requires c.sock.None?
    ensures var (after, refused) := Connect(env, c);
            && after.dialed == c.dialed + 1
            && (refused.None? <==> env.link(c.dialed).opens && HandshakeOf(c.log, after.log, c.dialed))
            && (refused.None? ==>
                  after.sock == Some(c.dialed) &&
                  Announces(env, after.log[|c.log| + 1].outcome.json, after.relayFee))
            && (!env.link(c.dialed).opens ==> refused == Some(Transport) && after.log == c.log)
            && (env.link(c.dialed).opens && refused.Some? ==>
                  |c.log| < |after.log| && StoppedBy(after.log[|after.log| - 1], refused.value) &&
                  (refused.value == Transport || after.sock.None?))
  {
    if env.link(c.dialed).opens {
      HandshakeSucceedsExactly(env, Dialed(env, c));
      HandshakeStops(env, Dialed(env, c));
    }
  }

  /**
   The first exchange of a dial reads the whole stream of its connection, and any greeting lines before the answer
   pass, whatever earlier connections had answered.
   */
  lemma DialHearsItsOwnStream(env: Env, c: Client)
    requires c.sock.None? && env.link(c.dialed).opens
    ensures var log := Connect(env, c).0.log;
            var id, stream := c.nextId + 1, Flat(env.link(c.dialed).chunks);
            && |c.log| < |log|
            && var outcome := log[|c.log|].outcome;
               && !outcome.BadStream?
               && (outcome.Lost? <==> !env.sends(id) || AllSkipped(env.decode, Lines(stream), id, false))
               && (outcome.Value? || outcome.ServerError? ==>
                     exists message, rest :: FirstMatch(env.decode, stream, id, false, message, rest) &&
                                             OutcomeOf(message) == outcome)
  {
    var dialed := Dialed(env, c);
    RawAnswersExactly(env, dialed, Version);
    var (c1, version) := Raw(env, dialed, Version);
    assert c1.log[|c.log|] == Exchange(c.dialed, c.nextId + 1, Version, version);
    if c1.sock.Some? {
      assert c1.log <= Raw(env, c1, Features).0.log;
    }
  }

  // ---------------------------------------------------------------- requests

  /** The last exchange, new since `log`, answered this very request. */
  predicate AnsweredLast(log: seq<Exchange>, longer: seq<Exchange>, m: Method) {
    |log| < |longer| && longer[|longer| - 1].rpc == m && longer[|longer| - 1].outcome.Value?
  }

  lemma LinkingAnswersNoCaller(env: Env, c: Client, m: Method)
    requires OfCaller(m)
    ensures c.log <= Linked(env, c).0.log && !AnsweredLast(c.log, Linked(env, c).0.log, m)
  {
    LinkedLogGrows(env, c);
    LinkedLog(env, c);
    if c.sock.None? && env.link(c.dialed).opens {
      HandshakeSucceedsExactly(env, Dialed(env, c));
      HandshakeEndsInItsOwn(env, Dialed(env, c));
    }
  }

  lemma HandshakeEndsInItsOwn(env: Env, c: Client)
    requires c.sock.Some?
    ensures var log := Handshake(env, c).0.log;
            |c.log| < |log| && (log[|log| - 1].rpc == Version || log[|log| - 1].rpc == Features)
  {
    var (c1, version) := Raw(env, c, Version);
    assert c1.log[|c.log|] == Exchange(c.sock.value, c.nextId + 1, Version, version);
    if c1.sock.Some? {
      var (c2, features) := Raw(env, c1, Features);
      assert c2.log[|c.log| + 1] == Exchange(c1.sock.value, c1.nextId + 1, Features, features);
    }
  }

  /** The outcome is a success exactly when the last exchange answered the request; what it answered is the result. */
  predicate CallAnswered(log: seq<Exchange>, m: Method, r: (Client, Result<Json, Refusal>)) {
    && log <= r.0.log
    && (r.1.Success? <==> AnsweredLast(log, r.0.log, m))
    && (r.1.Success? ==> r.1.value == r.0.log[|r.0.log| - 1].outcome.json)
  }

  lemma AttemptAnswersExactly(env: Env, c: Client, m: Method)
    requires OfCaller(m)
    ensures CallAnswered(c.log, m, Attempt(env, c, m))
  {
    LinkingAnswersNoCaller(env, c, m);
    var (c1, refused) := Linked(env, c);
    if refused.None? {
      var outcome := Raw(env, c1, m).1;
      assert Asked(env, c1, m).0.log == c1.log + [Exchange(c1.sock.value, c1.nextId + 1, m, outcome)];
    }
  }

  lemma AnsweredLater(log: seq<Exchange>, lost: (Client, Result<Json, Refusal>), m: Method,
                      r: (Client, Result<Json, Refusal>))
    requires CallAnswered(log, m, lost) && lost.1.Failure? && CallAnswered(lost.0.log, m, r)
    ensures CallAnswered(log, m, r)
  {
    if |r.0.log| == |lost.0.log| {
      assert r.0.log == lost.0.log;
    }
  }

  lemma RpcRepeats(env: Env, c: Client, m: Method, budget: nat)
    ensures var (c1, r1) := Attempt(env, c, m);
            Rpc(env, c, m, budget) ==
            if r1 == Failure(Transport) && budget > 0 then Rpc(env, c1, m, budget - 1) else (c1, r1)
  {
  }

  /** A call succeeds exactly when its last exchange is its own request, answered with a result; that is its answer. */
  lemma {:induction false} RpcAnswersExactly(env: Env, c: Client, m: Method, budget: nat)
    requires OfCaller(m)
    ensures CallAnswered(c.log, m, Rpc(env, c, m, budget))
    decreases budget
  {
    AttemptAnswersExactly(env, c, m);
    RpcRepeats(env, c, m, budget);
    var lost := Attempt(env, c, m);
    if lost.1 == Failure(Transport) && budget > 0 {
      RpcAnswersExactly(env, lost.0, m, budget - 1);
      AnsweredLater(c.log, lost, m, Rpc(env, lost.0, m, budget - 1));
    }
  }

  /** The client after this many attempts at a request. */
  function Tried(env: Env, c: Client, m: Method, n: nat): Client
    decreases n
  {
    if n == 0 then c else Tried(env, Attempt(env, c, m).0, m, n - 1)
  }

  /** The n-th attempt ends the call: every one before it was lost, and it is the last if it was lost itself. */
  ghost predicate EndsAt(env: Env, c: Client, m: Method, budget: nat, n: nat, r: (Client, Result<Json, Refusal>)) {
    && n <= budget
    && (forall i: nat :: i < n ==> Attempt(env, Tried(env, c, m, i), m).1 == Failure(Transport))
    && r == Attempt(env, Tried(env, c, m, n), m)
    && (r.1 == Failure(Transport) ==> n == budget)
  }

  lemma OneMoreTry(env: Env, c: Client, m: Method, budget: nat, n: nat, r: (Client, Result<Json, Refusal>))
    requires Attempt(env, c, m).1 == Failure(Transport) && EndsAt(env, Attempt(env, c, m).0, m, budget, n, r)
    ensures EndsAt(env, c, m, budget + 1, n + 1, r)
  {
    var c1 := Attempt(env, c, m).0;
    forall i: nat | i < n + 1
      ensures Attempt(env, Tried(env, c, m, i), m).1 == Failure(Transport)
    {
      if i > 0 {
        assert Tried(env, c, m, i) == Tried(env, c1, m, i - 1);
      }
    }
    assert Tried(env, c, m, n + 1) == Tried(env, c1, m, n);
  }

  /** Only a lost attempt is repeated, and a call is given up as lost after the whole budget and never earlier. */
  lemma {:induction false} RetriesExactly(env: Env, c: Client, m: Method, budget: nat)
    ensures exists n: nat :: EndsAt(env, c, m, budget, n, Rpc(env, c, m, budget))
    decreases budget
  {
    var (c1, r1) := Attempt(env, c, m);
    RpcRepeats(env, c, m, budget);
    if r1 == Failure(Transport) && budget > 0 {
      RetriesExactly(env, c1, m, budget - 1);
      var n: nat :| EndsAt(env, c1, m, budget - 1, n, Rpc(env, c1, m, budget - 1));
      OneMoreTry(env, c, m, budget - 1, n, Rpc(env, c1, m, budget - 1));
      assert EndsAt(env, c, m, budget, n + 1, Rpc(env, c, m, budget));
    } else {
      assert EndsAt(env, c, m, budget, 0, Rpc(env, c, m, budget));
    }
  }

  // ---------------------------------------------------------------- operations

  lemma CallSucceedsExactly(env: Env, c: Client, name: string)
    ensures var (after, r) := Step(env, c, Call(name));
            && (r.Success? <==> AnsweredLast(c.log, after.log, Other(name)))
            && (r.Success? ==> r.value == Plain(after.log[|after.log| - 1].outcome.json))
  {
    RpcAnswersExactly(env, c, Other(name), env.retries);
    var (c1, r1) := Rpc(env, c, Other(name), env.retries);
    assert Step(env, c, Call(name)) == (c1, if r1.Failure? then Failure(r1.error) else Success(Plain(r1.value)));
  }

  /** A broadcast succeeds exactly when its one attempt is answered with the transaction's own id. */
  lemma SendSucceedsExactly(env: Env, c: Client, hex: string)
    ensures var (after, r) := Step(env, c, SendTx(hex));
            var expected := env.txidOf(hex);
            && (expected.None? ==> r == Failure(BadTransaction) && after == c)
            && (expected.Some? ==>
                  && after == Attempt(env, c, Broadcast(hex)).0
                  && (r.Success? <==>
                        AnsweredLast(c.log, after.log, Broadcast(hex)) &&
                        after.log[|after.log| - 1].outcome.json == JStr(expected.value) &&
                        TxidHex(JStr(expected.value)))
                  && (r.Success? ==> r.value == Accepted(expected.value)))
  {
    RpcAnswersExactly(env, c, Broadcast(hex), 0);
  }

  lemma LatchedFetch(env: Env, c: Client, txid: string)
    requires c.latched
    ensures var (after, r) := FetchRaw(env, c, txid);
            && after.latched && c.log <= after.log
            && (r.Success? <==> AnsweredLast(c.log, after.log, TxRaw(txid)))
            && (r.Success? ==> r.value == Serialized(after.log[|after.log| - 1].outcome.json))
  {
    LatchStays(env, c, TxRaw(txid), env.retries);
    RpcAnswersExactly(env, c, TxRaw(txid), env.retries);
  }

  lemma FetchBranches(env: Env, c: Client, txid: string)
    ensures var (c1, r) := Rpc(env, c, TxVerbose(txid), env.retries);
            Step(env, c, FetchTx(txid)) ==
            if c.latched then FetchRaw(env, c, txid)
            else if r == Failure(Rejected(UNSUPPORTED)) then FetchRaw(env, c1.(latched := true), txid)
            else (c1, VerboseReply(r))
  {
  }

  /** A rejected verbose request is no answer, so what is answered after it is the serialized request's. */
  lemma RejectedIsNoAnswer(env: Env, c: Client, txid: string, longer: seq<Exchange>)
    requires Rpc(env, c, TxVerbose(txid), env.retries).1 == Failure(Rejected(UNSUPPORTED))
    requires Rpc(env, c, TxVerbose(txid), env.retries).0.log <= longer
    ensures var log := Rpc(env, c, TxVerbose(txid), env.retries).0.log;
            AnsweredLast(c.log, longer, TxRaw(txid)) <==> AnsweredLast(log, longer, TxRaw(txid))
  {
    RejectionNamesItsExchange(env, c, TxVerbose(txid), env.retries);
    RpcAnswersExactly(env, c, TxVerbose(txid), env.retries);
    var c1 := Rpc(env, c, TxVerbose(txid), env.retries).0;
    assert RejectedLast(c1, TxVerbose(txid), UNSUPPORTED);
    if |longer| == |c1.log| {
      assert longer == c1.log;
    }
  }

  /** The last exchange is the request that the latch calls for, answered with a result, exactly on success. */
  predicate FetchAnswered(c: Client, txid: string, after: Client, r: Result<Reply, Refusal>) {
    && (r.Success? <==> AnsweredLast(c.log, after.log, if after.latched then TxRaw(txid) else TxVerbose(txid)))
    && (r.Success? ==>
          var json := after.log[|after.log| - 1].outcome.json;
          r.value == if after.latched then Serialized(json) else Verbose(json))
  }

  lemma RejectedFetch(env: Env, c: Client, txid: string)
    requires Rpc(env, c, TxVerbose(txid), env.retries).1 == Failure(Rejected(UNSUPPORTED))
    ensures var c1 := Rpc(env, c, TxVerbose(txid), env.retries).0.(latched := true);
            var (after, r) := FetchRaw(env, c1, txid);
            FetchAnswered(c, txid, after, r)
  {
    var c1 := Rpc(env, c, TxVerbose(txid), env.retries).0.(latched := true);
    LatchedFetch(env, c1, txid);
    RejectedIsNoAnswer(env, c, txid, FetchRaw(env, c1, txid).0.log);
  }

  lemma LatchStays(env: Env, c: Client, m: Method, budget: nat)
    requires OfCaller(m)
    ensures Rpc(env, c, m, budget).0.latched == c.latched
  {
    RpcCost(env, c, m, budget, m);
  }

  /** What a fetch answers when the verbose call decides. */
  function VerboseReply(r: Result<Json, Refusal>): Result<Reply, Refusal> {
    if r.Failure? then Failure(r.error) else Success(Verbose(r.value))
  }

  lemma VerboseAnswers(c: Client, txid: string, out: (Client, Result<Json, Refusal>))
    requires CallAnswered(c.log, TxVerbose(txid), out) && !out.0.latched
    ensures FetchAnswered(c, txid, out.0, VerboseReply(out.1))
  {
  }

  lemma VerboseFetch(env: Env, c: Client, txid: string)
    requires !c.latched
    ensures FetchAnswered(c, txid, Rpc(env, c, TxVerbose(txid), env.retries).0,
                          VerboseReply(Rpc(env, c, TxVerbose(txid), env.retries).1))
  {
    LatchStays(env, c, TxVerbose(txid), env.retries);
    RpcAnswersExactly(env, c, TxVerbose(txid), env.retries);
    VerboseAnswers(c, txid, Rpc(env, c, TxVerbose(txid), env.retries));
  }

  /**
   A fetch succeeds exactly when its last exchange is the verbose or the serialized request, answered with a result;
   the first only while the latch stays open, the second only once it is closed.
   */
  lemma FetchSucceedsExactly(env: Env, c: Client, txid: string)
    ensures FetchAnswered(c, txid, Step(env, c, FetchTx(txid)).0, Step(env, c, FetchTx(txid)).1)
  {
    FetchBranches(env, c, txid);
    if c.latched {
      LatchedFetch(env, c, txid);
    } else if Rpc(env, c, TxVerbose(txid), env.retries).1 == Failure(Rejected(UNSUPPORTED)) {
      RejectedFetch(env, c, txid);
    } else {
      VerboseFetch(env, c, txid);
    }
  }

  /** A mainnet server that answers the version request with a list is served over: the fetch ends in its answer. */
  lemma ListedVersionIsServed()
    ensures var (after, r) := Step(PlainEnv(), Init(), FetchTx("aa"));
            after.log == PlainLog() && r == Success(Serialized(JStr("00")))
    ensures PlainLog()[0] == Exchange(0, 1, Version, Value(PlainVersion())) && PlainVersion().JArr?
  {
    PlainFetch();
    FetchSucceedsExactly(PlainEnv(), Init(), "aa");
  }
}
