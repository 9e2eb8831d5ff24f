/**
 The Electrum line protocol (src/localwallet/chain/electrum.py): framing of a byte stream, matching answers to
 request ids, the handshake gate with its retries, and the verbose-transaction latch.

 A connection delivers some chunks and is then lost; which connections open, which sends succeed and what each
 line parses to are inputs. One caller at a time.
 */
module Electrum {
  import opened Basics
  import opened JsonValues

  type Byte = b: int | 0 <= b < 256
  type Bytes = seq<Byte>

  const NEWLINE: Byte := 10

  // ---------------------------------------------------------------- framing

  function NextLine(bytes: Bytes): (r: Option<(Bytes, Bytes)>)
    ensures r.Some? ==> |r.value.1| < |bytes|
  {
    if bytes == [] then None
    else if bytes[0] == NEWLINE then Some(([], bytes[1..]))
    else
      var next := NextLine(bytes[1..]);
      if next.None? then None else Some(([bytes[0]] + next.value.0, next.value.1))
  }

  lemma {:induction false} NextLineSplits(bytes: Bytes)
    ensures match NextLine(bytes)
            case None => NEWLINE !in bytes
            case Some((line, rest)) => NEWLINE !in line && bytes == line + [NEWLINE] + rest
  {
    if bytes != [] && bytes[0] != NEWLINE {
      NextLineSplits(bytes[1..]);
      assert bytes == [bytes[0]] + bytes[1..];
    }
  }

  lemma {:induction false} NextLineOf(line: Bytes, rest: Bytes)
    requires NEWLINE !in line
    ensures NextLine(line + [NEWLINE] + rest) == Some((line, rest))
  {
    var all := line + [NEWLINE] + rest;
    if line == [] {
      assert all[1..] == rest;
    } else {
      assert all[1..] == line[1..] + [NEWLINE] + rest;
      NextLineOf(line[1..], rest);
      assert [line[0]] + line[1..] == line;
    }
  }

  function Lines(bytes: Bytes): seq<Bytes>
    decreases |bytes|
  {
    match NextLine(bytes)
    case None => []
    case Some((line, rest)) => [line] + Lines(rest)
  }

  function Tail(bytes: Bytes): Bytes
    decreases |bytes|
  {
    match NextLine(bytes)
    case None => bytes
    case Some((_, rest)) => Tail(rest)
  }

  function Framed(lines: seq<Bytes>): Bytes {
    if lines == [] then [] else lines[0] + [NEWLINE] + Framed(lines[1..])
  }

  lemma Assoc(a: Bytes, b: Bytes, c: Bytes)
    ensures a + (b + c) == a + b + c
  {
  }

  /** No byte is lost or invented: the lines with their newlines, then the incomplete rest, are the bytes. */
  lemma {:induction false} FramingConserves(bytes: Bytes)
    ensures Framed(Lines(bytes)) + Tail(bytes) == bytes && NEWLINE !in Tail(bytes)
    decreases |bytes|
  {
    NextLineSplits(bytes);
    match NextLine(bytes)
    case None =>
    case Some((line, rest)) =>
      FramingConserves(rest);
      assert Framed(Lines(bytes)) == line + [NEWLINE] + Framed(Lines(rest)) by {
        assert Lines(bytes)[1..] == Lines(rest);
      }
      Assoc(line + [NEWLINE], Framed(Lines(rest)), Tail(rest));
  }

  /** And the split is the only one: whoever sent these lines, then a fragment, is read back as just that. */
  lemma {:induction false} FramingIsUnique(lines: seq<Bytes>, tail: Bytes)
    requires NEWLINE !in tail && forall i :: 0 <= i < |lines| ==> NEWLINE !in lines[i]
    ensures Lines(Framed(lines) + tail) == lines && Tail(Framed(lines) + tail) == tail
  {
    NextLineSplits(tail);
    if lines == [] {
      assert Framed(lines) + tail == tail;
    } else {
      var rest := Framed(lines[1..]) + tail;
      assert Framed(lines) + tail == lines[0] + [NEWLINE] + rest;
      NextLineOf(lines[0], rest);
      FramingIsUnique(lines[1..], tail);
    }
  }

  function Flat(chunks: seq<Bytes>): Bytes {
    if chunks == [] then [] else Flat(chunks[..|chunks| - 1]) + chunks[|chunks| - 1]
  }

  // ---------------------------------------------------------------- matching answers to ids

  datatype Line = Blank | Unparsable | Parsed(json: Json)

  /** The id member equals the number, as the parser's values compare: an integer, a decimal, or true for one. */
  predicate Carries(message: Json, id: nat) {
    message.JObj? && "id" in message.members &&
    match message.members["id"]
    case JInt(n) => n == id
    case JReal(r) => r == id as real
    case JBool(b) => (if b then 1 else 0) == id
    case _ => false
  }

  lemma OneIdPerMessage(message: Json, a: nat, b: nat)
    requires Carries(message, a) && Carries(message, b)
    ensures a == b
  {
    assert a as real == b as real ==> a == b;
  }

  datatype Found = Match(message: Json, rest: Bytes) | Garbled | Silence

  function Answer(decode: Bytes -> Line, bytes: Bytes, id: nat, answered: bool): Found
    decreases |bytes|
  {
    match NextLine(bytes)
    case None => Silence
    case Some((line, rest)) =>
      match decode(line)
      case Unparsable => if answered then Garbled else Answer(decode, rest, id, answered)
      case Blank => Answer(decode, rest, id, answered)
      case Parsed(j) => if Carries(j, id) then Match(j, rest) else Answer(decode, rest, id, answered)
  }

  predicate Skipped(decode: Bytes -> Line, line: Bytes, id: nat, answered: bool) {
    match decode(line)
    case Blank => true
    case Unparsable => !answered
    case Parsed(j) => !Carries(j, id)
  }

  predicate AllSkipped(decode: Bytes -> Line, lines: seq<Bytes>, id: nat, answered: bool) {
    forall i :: 0 <= i < |lines| ==> Skipped(decode, lines[i], id, answered)
  }

  /** The `k`-th line carries the id, everything before it is skipped, and `rest` is what follows it. */
  predicate MatchedAt(decode: Bytes -> Line, bytes: Bytes, id: nat, answered: bool, message: Json, rest: Bytes, k: nat) {
    var lines := Lines(bytes);
    && k < |lines|
    && decode(lines[k]) == Parsed(message) && Carries(message, id)
    && AllSkipped(decode, lines[..k], id, answered)
    && bytes == Framed(lines[..k + 1]) + rest
  }

  predicate GarbledAt(decode: Bytes -> Line, bytes: Bytes, id: nat, k: nat) {
    var lines := Lines(bytes);
    k < |lines| && decode(lines[k]).Unparsable? && AllSkipped(decode, lines[..k], id, true)
  }

  ghost predicate FirstMatch(decode: Bytes -> Line, bytes: Bytes, id: nat, answered: bool, message: Json, rest: Bytes) {
    exists k: nat :: MatchedAt(decode, bytes, id, answered, message, rest, k)
  }

  ghost predicate FirstGarbage(decode: Bytes -> Line, bytes: Bytes, id: nat) {
    exists k: nat :: GarbledAt(decode, bytes, id, k)
  }

  lemma OneMoreSkipped(decode: Bytes -> Line, line: Bytes, later: seq<Bytes>, k: nat, id: nat, answered: bool)
    requires k <= |later| && Skipped(decode, line, id, answered) && AllSkipped(decode, later[..k], id, answered)
    ensures AllSkipped(decode, ([line] + later)[..k + 1], id, answered)
  {
    assert ([line] + later)[..k + 1] == [line] + later[..k];
  }

  /**
   The answer is the first line carrying the id, with every line before it skipped; on a connection that has not
   answered yet any number of unparsable lines may be among them, and afterwards the first one ends the stream.
   Only the bytes matter, not the chunks they came in.
   */
  lemma {:induction false} FirstLineWithTheId(decode: Bytes -> Line, bytes: Bytes, id: nat, answered: bool)
    ensures match Answer(decode, bytes, id, answered)
            case Silence => AllSkipped(decode, Lines(bytes), id, answered)
            case Match(message, rest) => FirstMatch(decode, bytes, id, answered, message, rest)
            case Garbled => answered && FirstGarbage(decode, bytes, id)
    decreases |bytes|
  {
    NextLineSplits(bytes);
    if NextLine(bytes).Some? {
      var (line, rest) := NextLine(bytes).value;
      var a := Answer(decode, bytes, id, answered);
      assert Lines(bytes) == [line] + Lines(rest);
      if Skipped(decode, line, id, answered) {
        FirstLineWithTheId(decode, rest, id, answered);
        assert a == Answer(decode, rest, id, answered);
        AnswerMovesOn(decode, bytes, line, rest, id, answered, a);
      } else {
        FramedOne(line);
        assert Lines(bytes)[..1] == [line] && Lines(bytes)[..0] == [];
        if a.Match? {
          assert MatchedAt(decode, bytes, id, answered, a.message, a.rest, 0);
        } else {
          assert GarbledAt(decode, bytes, id, 0);
        }
      }
    }
  }

  lemma AnswerMovesOn(decode: Bytes -> Line, bytes: Bytes, line: Bytes, rest: Bytes, id: nat, answered: bool, a: Found)
    requires bytes == line + [NEWLINE] + rest && Lines(bytes) == [line] + Lines(rest)
    requires Skipped(decode, line, id, answered)
    ensures a.Silence? && AllSkipped(decode, Lines(rest), id, answered) ==> AllSkipped(decode, Lines(bytes), id, answered)
    ensures a.Match? && FirstMatch(decode, rest, id, answered, a.message, a.rest) ==>
              FirstMatch(decode, bytes, id, answered, a.message, a.rest)
    ensures answered && FirstGarbage(decode, rest, id) ==> FirstGarbage(decode, bytes, id)
  {
    var later := Lines(rest);
    if a.Match? && FirstMatch(decode, rest, id, answered, a.message, a.rest) {
      var k: nat :| MatchedAt(decode, rest, id, answered, a.message, a.rest, k);
      OneMoreSkipped(decode, line, later, k, id, answered);
      FramedOneMore(line, later, k, a.rest);
      assert MatchedAt(decode, bytes, id, answered, a.message, a.rest, k + 1);
    }
    if answered && FirstGarbage(decode, rest, id) {
      var k: nat :| GarbledAt(decode, rest, id, k);
      OneMoreSkipped(decode, line, later, k, id, true);
      assert GarbledAt(decode, bytes, id, k + 1);
    }
  }

  lemma FramedOne(line: Bytes)
    ensures Framed([line]) == line + [NEWLINE]
  {
    assert [line][1..] == [];
  }

  // ---------------------------------------------------------------- the greeting

  /** The reader that the documentation describes: it lets the first unparsable line of a connection pass, and no more. */
  function OneGreetingAnswer(decode: Bytes -> Line, bytes: Bytes, id: nat, greeted: bool): Found
    decreases |bytes|
  {
    match NextLine(bytes)
    case None => Silence
    case Some((line, rest)) =>
      match decode(line)
      case Unparsable => if greeted then Garbled else OneGreetingAnswer(decode, rest, id, true)
      case Blank => OneGreetingAnswer(decode, rest, id, greeted)
      case Parsed(j) => if Carries(j, id) then Match(j, rest) else OneGreetingAnswer(decode, rest, id, greeted)
  }

  /** How many unparsable lines stand before the first line with the id. */
  function Greetings(decode: Bytes -> Line, bytes: Bytes, id: nat): nat
    decreases |bytes|
  {
    match NextLine(bytes)
    case None => 0
    case Some((line, rest)) =>
      match decode(line)
      case Unparsable => 1 + Greetings(decode, rest, id)
      case Blank => Greetings(decode, rest, id)
      case Parsed(j) => if Carries(j, id) then 0 else Greetings(decode, rest, id)
  }

  lemma {:induction false} GarbledByGreetings(decode: Bytes -> Line, bytes: Bytes, id: nat, answered: bool)
    ensures Answer(decode, bytes, id, answered).Garbled? <==> answered && Greetings(decode, bytes, id) > 0
    ensures Greetings(decode, bytes, id) == 0 ==> Answer(decode, bytes, id, true) == Answer(decode, bytes, id, false)
    decreases |bytes|
  {
    match NextLine(bytes)
    case None =>
    case Some((line, rest)) => GarbledByGreetings(decode, rest, id, answered);
  }

  /** The documented reader gives up exactly when more unparsable lines come than it still lets pass. */
  lemma {:induction false} OneGreetingIs(decode: Bytes -> Line, bytes: Bytes, id: nat, greeted: bool)
    ensures OneGreetingAnswer(decode, bytes, id, greeted) ==
            if Greetings(decode, bytes, id) + (if greeted then 1 else 0) > 1 then Garbled
            else Answer(decode, bytes, id, false)
    decreases |bytes|
  {
    match NextLine(bytes)
    case None =>
    case Some((line, rest)) =>
      OneGreetingIs(decode, rest, id, greeted);
      OneGreetingIs(decode, rest, id, true);
  }

  /**
   Where code and documentation agree on a connection whose earlier lines held `greeted` or no unparsable one: before
   its first answer, exactly while at most one unparsable line has come in all; after it, unless the one that ends the
   stream is the first of the connection and no other follows before the answer.
   */
  lemma GreetingRulesAgreeExactly(decode: Bytes -> Line, bytes: Bytes, id: nat, answered: bool, greeted: bool)
    ensures var n := Greetings(decode, bytes, id);
            Answer(decode, bytes, id, answered) == OneGreetingAnswer(decode, bytes, id, greeted) <==>
              if answered then greeted || n != 1 else n + (if greeted then 1 else 0) <= 1
  {
    OneGreetingIs(decode, bytes, id, greeted);
    GarbledByGreetings(decode, bytes, id, answered);
    GarbledByGreetings(decode, bytes, id, false);
  }

  function Chatty(line: Bytes): Line {
    if line == [49] then Parsed(ResultMessage(1, JNull)) else Unparsable
  }

  /** Two unparsable lines before the first answer: the code reads on, the documented reader gives the stream up. */
  lemma TwoGreetingsPass()
    ensures var bytes: Bytes := [35, NEWLINE, 35, NEWLINE, 49, NEWLINE];
            && Answer(Chatty, bytes, 1, false) == Match(ResultMessage(1, JNull), [])
            && OneGreetingAnswer(Chatty, bytes, 1, false) == Garbled
  {
    var second, third: Bytes := [35, NEWLINE, 49, NEWLINE], [49, NEWLINE];
    MessagesReadBack(1, 1, JNull, 0);
    assert third == [49] + [NEWLINE] + [];
    NextLineOf([49], []);
    assert second == [35] + [NEWLINE] + third;
    NextLineOf([35], third);
    assert Answer(Chatty, second, 1, false) == Answer(Chatty, third, 1, false);
    assert [35, NEWLINE, 35, NEWLINE, 49, NEWLINE] == [35] + [NEWLINE] + second;
    NextLineOf([35], second);
  }

  lemma FramedOneMore(line: Bytes, later: seq<Bytes>, k: nat, rest: Bytes)
    requires k < |later|
    ensures line + [NEWLINE] + (Framed(later[..k + 1]) + rest) == Framed(([line] + later)[..k + 2]) + rest
  {
    var longer := ([line] + later)[..k + 2];
    assert longer[1..] == later[..k + 1];
  }

  // ---------------------------------------------------------------- the client's state

  datatype Method =
    | Version
    | Features
    | Broadcast(hex: string)
    | TxVerbose(txid: string)
    | TxRaw(txid: string)
    | Other(name: string)

  /** A connection: whether it opens, and the chunks it delivers before it is lost. */
  datatype Link = Link(opens: bool, chunks: seq<Bytes>)

  datatype Env = Env(
    link: nat -> Link,
    sends: nat -> bool,
    decode: Bytes -> Line,
    retries: nat,
    txidOf: string -> Option<string>,
    fitsFloat: int -> bool)

  datatype Outcome = Value(json: Json) | ServerError(code: Option<int>) | BadStream | Lost

  /** One request: the connection it went to, its id, and how it ended. */
  datatype Exchange = Exchange(link: nat, id: nat, rpc: Method, outcome: Outcome)

  datatype Client = Client(
    sock: Option<nat>,
    pending: Bytes,
    nextId: nat,
    answered: bool,
    latched: bool,
    dialed: nat,
    log: seq<Exchange>,
    relayFee: Option<real>)

  datatype Refusal =
    | Transport
    | Rejected(code: Option<int>)
    | StreamGarbled
    | BadShape
    | NotMainnet
    | BadTransaction
    | ServerText
    | WrongTxid

  const MAINNET_GENESIS := "000000000019d6689c085ae165831e934ff763ae46a2a6c172b3f1b60a8ce26f"
  const VERBOSE_UNSUPPORTED := -32603

  function Init(): Client {
    Client(None, [], 0, false, false, 0, [], None)
  }

  function Drop(c: Client): Client {
    c.(sock := None, pending := [])
  }

  function CodeOf(error: Json): Option<int> {
    var code := Get(error, "code");
    if code.JInt? then Some(code.n) else None
  }

  function OutcomeOf(message: Json): Outcome {
    var error := Get(message, "error");
    if Truthy(error) then ServerError(CodeOf(error)) else Value(Get(message, "result"))
  }

  /** A server's answer to a request, and its rejection of one. */
  function ResultMessage(id: nat, result: Json): Json {
    JObj(map["id" := JInt(id), "result" := result, "error" := JNull])
  }

  function ErrorMessage(id: nat, code: int): Json {
    JObj(map["id" := JInt(id), "error" := JObj(map["code" := JInt(code)])])
  }

  /** Both are matched by their own id alone and read as what the server meant. */
  lemma MessagesReadBack(id: nat, other: nat, result: Json, code: int)
    ensures Carries(ResultMessage(id, result), other) <==> other == id
    ensures Carries(ErrorMessage(id, code), other) <==> other == id
    ensures OutcomeOf(ResultMessage(id, result)) == Value(result)
    ensures OutcomeOf(ErrorMessage(id, code)) == ServerError(Some(code))
  {
    var error := JObj(map["code" := JInt(code)]);
    assert "code" in error.members;
    assert Get(ErrorMessage(id, code), "error") == error;
  }

  /** Sending the request with this id and waiting for its answer. */
  function Conversed(env: Env, c: Client, id: nat): (r: (Client, Outcome))
    requires c.sock.Some?
    ensures r.1.BadStream? <==> r.0.sock.None?
    ensures r.0.sock.Some? ==> r.0.sock == c.sock
    ensures r.1.Value? ==> r.0.answered
    ensures r.0.log == c.log && r.0.nextId == c.nextId && r.0.dialed == c.dialed && r.0.latched == c.latched
    ensures r.0.relayFee == c.relayFee
  {
    if !env.sends(id) then (c, Lost)
    else
      match Answer(env.decode, c.pending, id, c.answered)
      case Silence => (c.(pending := Tail(c.pending)), Lost)
      case Garbled => (Drop(c), BadStream)
      case Match(message, rest) => (c.(pending := rest, answered := true), OutcomeOf(message))
  }

  function Raw(env: Env, c: Client, m: Method): (r: (Client, Outcome))
    requires c.sock.Some?
    ensures r.1.BadStream? <==> r.0.sock.None?
    ensures r.0.sock.Some? ==> r.0.sock == c.sock
    ensures r.1.Value? ==> r.0.answered
    ensures r.0.log == c.log + [Exchange(c.sock.value, c.nextId + 1, m, r.1)]
    ensures r.0.nextId == c.nextId + 1 && r.0.dialed == c.dialed && r.0.latched == c.latched
    ensures r.0.relayFee == c.relayFee
  {
    var id := c.nextId + 1;
    var (c1, outcome) := Conversed(env, c.(nextId := id), id);
    (c1.(log := c1.log + [Exchange(c.sock.value, id, m, outcome)]), outcome)
  }

  function RefusalOf(o: Outcome): Refusal
    requires !o.Value?
  {
    match o
    case ServerError(code) => Rejected(code)
    case BadStream => StreamGarbled
    case Lost => Transport
  }

  predicate ProvesMainnet(o: Outcome) {
    o.Value? && Get(o.json, "genesis_hash") == JStr(MAINNET_GENESIS)
  }

  /** The relay fee a features answer announces: a finite number, and nothing otherwise. */
  function Announced(env: Env, features: Json): Option<real> {
    match Get(features, "relayfee")
    case JInt(n) => if env.fitsFloat(n) then Some(n as real) else None
    case JReal(r) => Some(r)
    case _ => None
  }

  function Handshake(env: Env, c: Client): (r: (Client, Option<Refusal>))
    requires c.sock.Some?
    ensures r.1 == None || r.1 == Some(Transport) ==> r.0.sock == c.sock
  {
    var (c1, version) := Raw(env, c, Version);
    if !version.Value? then (c1, Some(RefusalOf(version)))
    else if !version.json.JStr? && !version.json.JArr? then (c1, Some(BadShape))
    else
      var (c2, features) := Raw(env, c1, Features);
      if !features.Value? then (c2, Some(RefusalOf(features)))
      else if !ProvesMainnet(features) then (c2, Some(NotMainnet))
      else (c2.(relayFee := Announced(env, features.json)), None)
  }

  /** A new connection: nothing read, nothing answered. */
  function Dialed(env: Env, c: Client): Client {
    Client(Some(c.dialed), Flat(env.link(c.dialed).chunks), c.nextId, false, c.latched, c.dialed + 1, c.log,
           c.relayFee)
  }

  /** A refused handshake leaves no connection; a lost one is dropped by the retry loop. */
  function Connect(env: Env, c: Client): (r: (Client, Option<Refusal>))
    requires c.sock.None?
    ensures r.1.None? ==> r.0.sock.Some?
  {
    var c1 := c.(dialed := c.dialed + 1);
    if !env.link(c.dialed).opens then (c1, Some(Transport))
    else
      var (c2, refused) := Handshake(env, Dialed(env, c));
      if refused.Some? && refused.value != Transport then (Drop(c2), refused) else (c2, refused)
  }

  /** A live connection, dialled now if there is none. */
  function Linked(env: Env, c: Client): (r: (Client, Option<Refusal>))
    ensures r.1.None? ==> r.0.sock.Some?
  {
    if c.sock.Some? then (c, None)
    else
      var (c1, refused) := Connect(env, c);
      (if refused == Some(Transport) then Drop(c1) else c1, refused)
  }

  function Asked(env: Env, c: Client, m: Method): (r: (Client, Result<Json, Refusal>))
    requires c.sock.Some?
    ensures r.1 == Failure(Transport) ==> r.0.sock.None?
  {
    var (c1, outcome) := Raw(env, c, m);
    if outcome.Lost? then (Drop(c1), Failure(Transport))
    else if outcome.Value? then (c1, Success(outcome.json))
    else (c1, Failure(RefusalOf(outcome)))
  }

  function Attempt(env: Env, c: Client, m: Method): (Client, Result<Json, Refusal>) {
    var (c1, refused) := Linked(env, c);
    if refused.Some? then (c1, Failure(refused.value)) else Asked(env, c1, m)
  }

  function Rpc(env: Env, c: Client, m: Method, budget: nat): (Client, Result<Json, Refusal>)
    decreases budget
  {
    var (c1, r) := Attempt(env, c, m);
    if r == Failure(Transport) && budget > 0 then Rpc(env, c1, m, budget - 1) else (c1, r)
  }

  // ---------------------------------------------------------------- operations

  datatype Op = Call(name: string) | SendTx(hex: string) | FetchTx(txid: string) | Close

  datatype Reply = Nothing | Plain(json: Json) | Accepted(txid: string) | Verbose(json: Json) | Serialized(json: Json)

  function DoSend(env: Env, c: Client, hex: string): (Client, Result<Reply, Refusal>) {
    var expected := env.txidOf(hex);
    if expected.None? then (c, Failure(BadTransaction))
    else
      var (c1, r) := Rpc(env, c, Broadcast(hex), 0);
      (c1, if r.Failure? then Failure(r.error)
           else if !TxidHex(r.value) then Failure(ServerText)
           else if r.value.s != expected.value then Failure(WrongTxid)
           else Success(Accepted(r.value.s)))
  }

  function FetchRaw(env: Env, c: Client, txid: string): (Client, Result<Reply, Refusal>) {
    var (c1, r) := Rpc(env, c, TxRaw(txid), env.retries);
    (c1, if r.Failure? then Failure(r.error) else Success(Serialized(r.value)))
  }

  /** One transaction, verbose first; the one rejection code that means "no verbose here" latches. */
  function DoFetch(env: Env, c: Client, txid: string): (Client, Result<Reply, Refusal>) {
    if c.latched then FetchRaw(env, c, txid)
    else
      var (c1, r) := Rpc(env, c, TxVerbose(txid), env.retries);
      if r == Failure(Rejected(Some(VERBOSE_UNSUPPORTED))) then FetchRaw(env, c1.(latched := true), txid)
      else (c1, if r.Failure? then Failure(r.error) else Success(Verbose(r.value)))
  }

  function Step(env: Env, c: Client, op: Op): (Client, Result<Reply, Refusal>) {
    match op
    case Call(name) =>
      var (c1, r) := Rpc(env, c, Other(name), env.retries);
      (c1, if r.Failure? then Failure(r.error) else Success(Plain(r.value)))
    case SendTx(hex) => DoSend(env, c, hex)
    case FetchTx(txid) => DoFetch(env, c, txid)
    case Close => (Drop(c), Success(Nothing))
  }

  function Run(env: Env, ops: seq<Op>): Client {
    if ops == [] then Init() else Step(env, Run(env, ops[..|ops| - 1]), ops[|ops| - 1]).0
  }

  // ---------------------------------------------------------------- what every run keeps

  /** On this connection the server has named the mainnet genesis block, among the first `n` exchanges. */
  ghost predicate Proven(log: seq<Exchange>, n: nat, link: nat)
    requires n <= |log|
  {
    exists i :: 0 <= i < n && log[i].link == link && log[i].rpc == Features && ProvesMainnet(log[i].outcome)
  }

  /** A request of the caller goes only over a connection already proven; ids count up over all connections. */
  ghost predicate LogIsGated(log: seq<Exchange>) {
    forall i :: 0 <= i < |log| ==>
      log[i].id == i + 1 && (log[i].rpc.Version? || log[i].rpc.Features? || Proven(log, i, log[i].link))
  }

  /** The fee is the announcement of a features answer on this connection that also proved mainnet. */
  ghost predicate AnnouncedOn(env: Env, log: seq<Exchange>, link: nat, fee: Option<real>) {
    exists i :: 0 <= i < |log| && log[i].link == link && log[i].rpc == Features && ProvesMainnet(log[i].outcome) &&
                fee == Announced(env, log[i].outcome.json)
  }

  /**
   Between calls: a live socket has proven mainnet and answered, the retained relay fee is that connection's own
   announcement, and nothing is buffered without a socket.
   */
  ghost predicate Ready(env: Env, c: Client) {
    && LogIsGated(c.log)
    && c.nextId == |c.log|
    && (c.sock.None? ==> c.pending == [])
    && (c.sock.Some? ==>
          Proven(c.log, |c.log|, c.sock.value) && c.answered && AnnouncedOn(env, c.log, c.sock.value, c.relayFee))
  }

  lemma ProvenGrows(log: seq<Exchange>, longer: seq<Exchange>, n: nat, m: nat, link: nat)
    requires n <= |log| && n <= m <= |longer| && log <= longer && Proven(log, n, link)
    ensures Proven(longer, m, link)
  {
    var i :| 0 <= i < n && log[i].link == link && log[i].rpc == Features && ProvesMainnet(log[i].outcome);
    assert longer[i] == log[i];
  }

  lemma AnnouncedGrows(env: Env, log: seq<Exchange>, longer: seq<Exchange>, link: nat, fee: Option<real>)
    requires log <= longer && AnnouncedOn(env, log, link, fee)
    ensures AnnouncedOn(env, longer, link, fee)
  {
    var i :| 0 <= i < |log| && log[i].link == link && log[i].rpc == Features && ProvesMainnet(log[i].outcome) &&
             fee == Announced(env, log[i].outcome.json);
    assert longer[i] == log[i];
  }

  lemma LogGrowsGated(log: seq<Exchange>, e: Exchange)
    requires LogIsGated(log) && e.id == |log| + 1
    requires e.rpc.Version? || e.rpc.Features? || Proven(log, |log|, e.link)
    ensures LogIsGated(log + [e])
  {
    var longer := log + [e];
    forall i | 0 <= i < |longer|
      ensures longer[i].id == i + 1
      ensures longer[i].rpc.Version? || longer[i].rpc.Features? || Proven(longer, i, longer[i].link)
    {
      if i < |log| {
        assert longer[i] == log[i];
        if Proven(log, i, log[i].link) { ProvenGrows(log, longer, i, i, log[i].link); }
      } else if Proven(log, |log|, e.link) {
        ProvenGrows(log, longer, |log|, i, e.link);
      }
    }
  }

  lemma HandshakeProves(env: Env, c: Client)
    requires c.sock.Some? && LogIsGated(c.log) && c.nextId == |c.log|
    ensures var (after, refused) := Handshake(env, c);
            && LogIsGated(after.log) && after.nextId == |after.log|
            && (refused.None? ==>
                  Proven(after.log, |after.log|, c.sock.value) && after.answered &&
                  AnnouncedOn(env, after.log, c.sock.value, after.relayFee))
  {
    var (c1, version) := Raw(env, c, Version);
    LogGrowsGated(c.log, Exchange(c.sock.value, c.nextId + 1, Version, version));
    if c1.sock.Some? {
      var (c2, features) := Raw(env, c1, Features);
      var e := Exchange(c1.sock.value, c1.nextId + 1, Features, features);
      LogGrowsGated(c1.log, e);
      assert c2.log[|c1.log|] == e;
    }
  }

  lemma ConnectProves(env: Env, c: Client)
    requires Ready(env, c) && c.sock.None?
    ensures var (after, refused) := Connect(env, c);
            && LogIsGated(after.log) && after.nextId == |after.log|
            && (refused.None? ==> Ready(env, after))
            && (refused.Some? && refused.value != Transport ==> Ready(env, after))
  {
    if env.link(c.dialed).opens {
      var dialed := Dialed(env, c);
      HandshakeProves(env, dialed);
      var (c2, refused) := Handshake(env, dialed);
      if refused.None? {
        assert Ready(env, c2);
      } else {
        assert Ready(env, Drop(c2));
      }
    }
  }

  lemma RawKeepsReady(env: Env, c: Client, m: Method)
    requires Ready(env, c) && c.sock.Some?
    ensures Ready(env, Raw(env, c, m).0)
  {
    var (after, outcome) := Raw(env, c, m);
    LogGrowsGated(c.log, Exchange(c.sock.value, c.nextId + 1, m, outcome));
    ProvenGrows(c.log, after.log, |c.log|, |after.log|, c.sock.value);
    AnnouncedGrows(env, c.log, after.log, c.sock.value, c.relayFee);
  }

  lemma AttemptKeepsReady(env: Env, c: Client, m: Method)
    requires Ready(env, c)
    ensures Ready(env, Attempt(env, c, m).0)
  {
    if c.sock.None? {
      ConnectProves(env, c);
    }
    var (c1, refused) := Linked(env, c);
    assert Ready(env, c1);
    if refused.None? {
      RawKeepsReady(env, c1, m);
    }
  }

  lemma {:induction false} RpcKeepsReady(env: Env, c: Client, m: Method, budget: nat)
    requires Ready(env, c)
    ensures Ready(env, Rpc(env, c, m, budget).0)
    decreases budget
  {
    AttemptKeepsReady(env, c, m);
    var (c1, r) := Attempt(env, c, m);
    if r == Failure(Transport) && budget > 0 {
      RpcKeepsReady(env, c1, m, budget - 1);
    }
  }

  lemma StepKeepsReady(env: Env, c: Client, op: Op)
    requires Ready(env, c)
    ensures Ready(env, Step(env, c, op).0)
  {
    match op
    case Call(name) => RpcKeepsReady(env, c, Other(name), env.retries);
    case SendTx(hex) => RpcKeepsReady(env, c, Broadcast(hex), 0);
    case FetchTx(txid) =>
      RpcKeepsReady(env, c, TxRaw(txid), env.retries);
      RpcKeepsReady(env, c, TxVerbose(txid), env.retries);
      RpcKeepsReady(env, Rpc(env, c, TxVerbose(txid), env.retries).0.(latched := true), TxRaw(txid), env.retries);
    case Close =>
  }

  /**
   In every run of calls, whatever connections, losses and answers: between calls a live socket has proven mainnet
   and answered; every request of a caller went over a connection proven before it; and the ids are 1, 2, 3, ...
   across all reconnects.
   */
  lemma {:induction false} EveryRunIsGated(env: Env, ops: seq<Op>)
    ensures Ready(env, Run(env, ops))
  {
    if ops == [] {
    } else {
      EveryRunIsGated(env, ops[..|ops| - 1]);
      StepKeepsReady(env, Run(env, ops[..|ops| - 1]), ops[|ops| - 1]);
    }
  }

  // ---------------------------------------------------------------- how often, and whose answer

  predicate OfCaller(m: Method) {
    !m.Version? && !m.Features?
  }

  function Sent(log: seq<Exchange>, m: Method): nat {
    if log == [] then 0 else Sent(log[..|log| - 1], m) + (if log[|log| - 1].rpc == m then 1 else 0)
  }

  lemma OneMoreSent(log: seq<Exchange>, e: Exchange, m: Method)
    ensures Sent(log + [e], m) == Sent(log, m) + (if e.rpc == m then 1 else 0)
  {
    assert (log + [e])[..|log|] == log;
  }

  lemma RawCost(env: Env, c: Client, sent: Method, m: Method)
    requires c.sock.Some?
    ensures Sent(Raw(env, c, sent).0.log, m) == Sent(c.log, m) + (if sent == m then 1 else 0)
  {
    OneMoreSent(c.log, Exchange(c.sock.value, c.nextId + 1, sent, Raw(env, c, sent).1), m);
  }

  /** A handshake stops after the version exchange or after the features exchange. */
  lemma HandshakeStops(env: Env, c: Client)
    requires c.sock.Some?
    ensures var after, c1 := Handshake(env, c).0, Raw(env, c, Version).0;
            && after.latched == c.latched && after.dialed == c.dialed
            && (after.log == c1.log || (c1.sock.Some? && after.log == Raw(env, c1, Features).0.log))
  {
  }

  lemma HandshakeSendsNothingElse(env: Env, c: Client, m: Method)
    requires c.sock.Some? && OfCaller(m)
    ensures Sent(Handshake(env, c).0.log, m) == Sent(c.log, m)
    ensures Handshake(env, c).0.latched == c.latched && Handshake(env, c).0.dialed == c.dialed
  {
    HandshakeStops(env, c);
    RawCost(env, c, Version, m);
    var c1 := Raw(env, c, Version).0;
    if c1.sock.Some? {
      RawCost(env, c1, Features, m);
    }
  }

  lemma ConnectSendsNothingElse(env: Env, c: Client, m: Method)
    requires c.sock.None? && OfCaller(m)
    ensures var after := Connect(env, c).0;
            Sent(after.log, m) == Sent(c.log, m) && after.latched == c.latched && after.dialed == c.dialed + 1
  {
    if env.link(c.dialed).opens {
      HandshakeSendsNothingElse(env, Dialed(env, c), m);
    }
  }

  lemma LinkedCost(env: Env, c: Client, m: Method)
    requires OfCaller(m)
    ensures var after := Linked(env, c).0;
            Sent(after.log, m) == Sent(c.log, m) && c.dialed <= after.dialed <= c.dialed + 1 && after.latched == c.latched
  {
    if c.sock.None? {
      ConnectSendsNothingElse(env, c, m);
    }
  }

  lemma AskedCost(env: Env, c: Client, sent: Method, m: Method)
    requires c.sock.Some?
    ensures var after := Asked(env, c, sent).0;
            && Sent(after.log, m) == Sent(c.log, m) + (if sent == m then 1 else 0)
            && after.dialed == c.dialed && after.latched == c.latched
  {
    RawCost(env, c, sent, m);
  }

  lemma AttemptCost(env: Env, c: Client, sent: Method, m: Method)
    requires OfCaller(m)
    ensures var after := Attempt(env, c, sent).0;
            && Sent(c.log, m) <= Sent(after.log, m) <= Sent(c.log, m) + (if sent == m then 1 else 0)
            && c.dialed <= after.dialed <= c.dialed + 1
            && after.latched == c.latched
  {
    LinkedCost(env, c, m);
    var (c1, refused) := Linked(env, c);
    if refused.None? {
      AskedCost(env, c1, sent, m);
      assert Attempt(env, c, sent).0 == Asked(env, c1, sent).0;
    }
  }

  /** A call makes at most `budget + 1` attempts: that many requests of its own, no other, and that many dials. */
  lemma {:induction false} RpcCost(env: Env, c: Client, sent: Method, budget: nat, m: Method)
    requires OfCaller(m)
    ensures var after := Rpc(env, c, sent, budget).0;
            && Sent(c.log, m) <= Sent(after.log, m) <= Sent(c.log, m) + (if sent == m then budget + 1 else 0)
            && c.dialed <= after.dialed <= c.dialed + budget + 1
            && after.latched == c.latched
    decreases budget
  {
    AttemptCost(env, c, sent, m);
    var (c1, r) := Attempt(env, c, sent);
    if r == Failure(Transport) && budget > 0 {
      RpcCost(env, c1, sent, budget - 1, m);
    }
  }

  /** How often an operation may send each request; a latched client never asks for a verbose transaction. */
  function OwnCost(env: Env, c: Client, op: Op, m: Method): nat {
    match op
    case Call(name) => if m == Other(name) then env.retries + 1 else 0
    case SendTx(hex) => if m == Broadcast(hex) then 1 else 0
    case FetchTx(txid) => if m == TxRaw(txid) || (m == TxVerbose(txid) && !c.latched) then env.retries + 1 else 0
    case Close => 0
  }

  /** Requests per operation: a broadcast goes out at most once, and the latch only ever closes. */
  lemma RequestsPerCall(env: Env, c: Client, op: Op, m: Method)
    requires OfCaller(m)
    ensures var after := Step(env, c, op).0;
            && Sent(c.log, m) <= Sent(after.log, m) <= Sent(c.log, m) + OwnCost(env, c, op, m)
            && (c.latched ==> after.latched)
            && (after.latched && !c.latched ==> op.FetchTx?)
  {
    match op
    case Call(name) => RpcCost(env, c, Other(name), env.retries, m);
    case SendTx(hex) => RpcCost(env, c, Broadcast(hex), 0, m);
    case FetchTx(txid) =>
      RpcCost(env, c, TxRaw(txid), env.retries, m);
      RpcCost(env, c, TxVerbose(txid), env.retries, m);
      RpcCost(env, Rpc(env, c, TxVerbose(txid), env.retries).0.(latched := true), TxRaw(txid), env.retries, m);
    case Close =>
  }

  function TimesAsked(ops: seq<Op>, hex: string): nat {
    if ops == [] then 0 else TimesAsked(ops[..|ops| - 1], hex) + (if ops[|ops| - 1] == SendTx(hex) then 1 else 0)
  }

  /** Over a whole run a transaction's bytes are sent at most as often as the caller asked to broadcast them. */
  lemma {:induction false} BroadcastsAreCounted(env: Env, ops: seq<Op>, hex: string)
    ensures Sent(Run(env, ops).log, Broadcast(hex)) <= TimesAsked(ops, hex)
  {
    if ops == [] {
    } else {
      BroadcastsAreCounted(env, ops[..|ops| - 1], hex);
      RequestsPerCall(env, Run(env, ops[..|ops| - 1]), ops[|ops| - 1], Broadcast(hex));
    }
  }

  /** The answer was read, as the first line with its id, from what the connection still held before the request. */
  ghost predicate AnsweredOn(env: Env, before: Client, after: Client, m: Method, message: Json) {
    && before.sock.Some? && before.sock == after.sock
    && after.nextId == before.nextId + 1
    && after.log == before.log + [Exchange(before.sock.value, after.nextId, m, OutcomeOf(message))]
    && FirstMatch(env.decode, before.pending, after.nextId, before.answered, message, after.pending)
  }

  lemma AskedResult(env: Env, c: Client, m: Method)
    requires c.sock.Some?
    ensures var (after, r) := Asked(env, c, m);
            r.Success? ==> exists message :: AnsweredOn(env, c, after, m, message) && OutcomeOf(message) == Value(r.value)
  {
    var id := c.nextId + 1;
    var (after, outcome) := Raw(env, c, m);
    if outcome.Value? {
      FirstLineWithTheId(env.decode, c.pending, id, c.answered);
      var message := Answer(env.decode, c.pending, id, c.answered).message;
      assert AnsweredOn(env, c, after, m, message);
    }
  }

  lemma LinkedCountsUp(env: Env, c: Client)
    ensures Linked(env, c).0.nextId >= c.nextId
  {
  }

  lemma AttemptResult(env: Env, c: Client, m: Method)
    ensures var (after, r) := Attempt(env, c, m);
            r.Success? ==> exists before, message ::
              AnsweredOn(env, before, after, m, message) && OutcomeOf(message) == Value(r.value) &&
              before.nextId >= c.nextId
    ensures Attempt(env, c, m).0.nextId >= c.nextId
  {
    LinkedCountsUp(env, c);
    var (c1, refused) := Linked(env, c);
    if refused.None? {
      AskedResult(env, c1, m);
    }
  }

  /**
   A returned result is the result of the first line carrying this request's id, an id no earlier request of the
   client had; so a late answer to an earlier request is never taken for it, on this connection or a previous one.
   */
  lemma {:induction false} ResultIsThisRequests(env: Env, c: Client, m: Method, budget: nat)
    ensures var (after, r) := Rpc(env, c, m, budget);
            r.Success? ==> exists before, message ::
              && AnsweredOn(env, before, after, m, message) && OutcomeOf(message) == Value(r.value)
              && forall id :: 0 <= id <= c.nextId ==> !Carries(message, id)
    ensures Rpc(env, c, m, budget).0.nextId >= c.nextId
    decreases budget
  {
    AttemptResult(env, c, m);
    var (c1, r1) := Attempt(env, c, m);
    if r1 == Failure(Transport) && budget > 0 {
      ResultIsThisRequests(env, c1, m, budget - 1);
    } else if r1.Success? {
      var before, message :| AnsweredOn(env, before, c1, m, message) && OutcomeOf(message) == Value(r1.value) &&
                             before.nextId >= c.nextId;
      MatchCarries(env, before, c1, m, message);
      forall id | 0 <= id <= c.nextId
        ensures !Carries(message, id)
      {
        if Carries(message, id) { OneIdPerMessage(message, id, c1.nextId); }
      }
    }
  }

  lemma MatchCarries(env: Env, before: Client, after: Client, m: Method, message: Json)
    requires AnsweredOn(env, before, after, m, message)
    ensures Carries(message, after.nextId)
  {
  }

  // ---------------------------------------------------------------- the verbose latch

  /** The last exchange was answered with this rejection: the request itself, or a handshake before it. */
  predicate RejectedLast(c: Client, m: Method, code: Option<int>) {
    && c.log != []
    && var last := c.log[|c.log| - 1];
       && last.outcome == ServerError(code)
       && (last.rpc == m || last.rpc == Version || last.rpc == Features)
       && (last.rpc == m <==> c.sock.Some?)
  }

  lemma LinkedRejection(env: Env, c: Client, m: Method)
    requires OfCaller(m)
    ensures var (after, refused) := Linked(env, c);
            refused.Some? && refused.value.Rejected? ==> RejectedLast(after, m, refused.value.code)
  {
  }

  lemma AttemptRejection(env: Env, c: Client, m: Method)
    requires OfCaller(m)
    ensures var (after, r) := Attempt(env, c, m);
            r.Failure? && r.error.Rejected? ==> RejectedLast(after, m, r.error.code)
  {
    LinkedRejection(env, c, m);
  }

  /** A rejection names the last exchange; the connection survives exactly when the request itself was rejected. */
  lemma {:induction false} RejectionNamesItsExchange(env: Env, c: Client, m: Method, budget: nat)
    requires OfCaller(m)
    ensures var (after, r) := Rpc(env, c, m, budget);
            r.Failure? && r.error.Rejected? ==> RejectedLast(after, m, r.error.code)
    decreases budget
  {
    AttemptRejection(env, c, m);
    var (c1, r1) := Attempt(env, c, m);
    if r1 == Failure(Transport) && budget > 0 {
      RejectionNamesItsExchange(env, c1, m, budget - 1);
    }
  }

  /**
   The guard of the branch that mistakes the rejection: an attempt finds no connection and its dial is answered with
   this code, every attempt before it being lost.
   */
  predicate HandshakeRejects(env: Env, c: Client, m: Method, budget: nat, code: Option<int>)
    decreases budget
  {
    (c.sock.None? && Connect(env, c).1 == Some(Rejected(code))) ||
    (Attempt(env, c, m).1 == Failure(Transport) && budget > 0 &&
     HandshakeRejects(env, Attempt(env, c, m).0, m, budget - 1, code))
  }

  lemma AskedKeepsRejecting(env: Env, c: Client, m: Method, code: Option<int>)
    requires c.sock.Some?
    ensures var (after, r) := Asked(env, c, m);
            r == Failure(Rejected(code)) ==> after.sock.Some?
  {
  }

  /** One attempt drops the connection over this rejection exactly when its dial was answered with it. */
  lemma AttemptRejectionIsTheDials(env: Env, c: Client, m: Method, code: Option<int>)
    ensures var (after, r) := Attempt(env, c, m);
            var dial := c.sock.None? && Connect(env, c).1 == Some(Rejected(code));
            (dial <==> r == Failure(Rejected(code)) && after.sock.None?)
  {
    var (c1, refused) := Linked(env, c);
    if refused.None? {
      AskedKeepsRejecting(env, c1, m, code);
    }
  }

  lemma {:induction false} DroppedOverTheHandshake(env: Env, c: Client, m: Method, budget: nat, code: Option<int>)
    ensures var (after, r) := Rpc(env, c, m, budget);
            HandshakeRejects(env, c, m, budget, code) <==> r == Failure(Rejected(code)) && after.sock.None?
    decreases budget
  {
    AttemptRejectionIsTheDials(env, c, m, code);
    var (c1, r1) := Attempt(env, c, m);
    if r1 == Failure(Transport) && budget > 0 {
      DroppedOverTheHandshake(env, c1, m, budget - 1, code);
    }
  }

  /**
   Whose rejection a call ends in: a rejected dial ends it, and a call that ends rejected was rejected by a handshake
   if and only if some dial of it is.
   */
  lemma RejectionIsTheHandshakes(env: Env, c: Client, m: Method, budget: nat, code: Option<int>)
    requires OfCaller(m)
    ensures var (after, r) := Rpc(env, c, m, budget);
            && (HandshakeRejects(env, c, m, budget, code) ==> r == Failure(Rejected(code)))
            && (r == Failure(Rejected(code)) ==>
                  RejectedLast(after, m, code) &&
                  (after.log[|after.log| - 1].rpc != m <==> HandshakeRejects(env, c, m, budget, code)))
  {
    DroppedOverTheHandshake(env, c, m, budget, code);
    RejectionNamesItsExchange(env, c, m, budget);
    var (after, r) := Rpc(env, c, m, budget);
    if r == Failure(Rejected(code)) {
      assert r.error.code == code;
      assert RejectedLast(after, m, code);
    }
  }

  const UNSUPPORTED := Some(VERBOSE_UNSUPPORTED)

  /** The verbose request itself was the last to be answered, and with the code for "no verbose here". */
  predicate VerboseRejected(c: Client, txid: string) {
    c.log != [] && c.log[|c.log| - 1].rpc == TxVerbose(txid) && c.log[|c.log| - 1].outcome == ServerError(UNSUPPORTED)
  }

  /**
   When the latch closes, and whether rightly. It closes exactly when the verbose call ends in the "verbose
   unsupported" rejection; it does so without a verbose request having been rejected if and only if a dial of the
   call is answered with that code.
   */
  lemma LatchClosesExactly(env: Env, c: Client, txid: string)
    requires !c.latched
    ensures var (c1, r) := Rpc(env, c, TxVerbose(txid), env.retries);
            var after := Step(env, c, FetchTx(txid)).0;
            && (after.latched <==> r == Failure(Rejected(UNSUPPORTED)))
            && (after.latched && !VerboseRejected(c1, txid) <==>
                  HandshakeRejects(env, c, TxVerbose(txid), env.retries, UNSUPPORTED))
  {
    var (c1, r) := Rpc(env, c, TxVerbose(txid), env.retries);
    RpcCost(env, c, TxVerbose(txid), env.retries, TxVerbose(txid));
    RejectionIsTheHandshakes(env, c, TxVerbose(txid), env.retries, UNSUPPORTED);
    if r == Failure(Rejected(UNSUPPORTED)) {
      RpcCost(env, c1.(latched := true), TxRaw(txid), env.retries, TxVerbose(txid));
    }
  }

  predicate RefusedVerbose(e: Exchange) {
    e.rpc.TxVerbose? && e.outcome == ServerError(UNSUPPORTED)
  }

  predicate RefusedHandshake(e: Exchange) {
    (e.rpc.Version? || e.rpc.Features?) && e.outcome == ServerError(UNSUPPORTED)
  }

  /** A verbose request of this client was sent and answered "no verbose here". */
  ghost predicate SomeVerboseRejected(log: seq<Exchange>) {
    exists i :: 0 <= i < |log| && RefusedVerbose(log[i])
  }

  /** A handshake of this client was answered with the code that is meant for verbose requests. */
  ghost predicate SomeHandshakeRejected(log: seq<Exchange>) {
    exists i :: 0 <= i < |log| && RefusedHandshake(log[i])
  }

  /** No exchange from position `n` on refused a verbose request. */
  ghost predicate NoVerboseRefused(log: seq<Exchange>, n: nat) {
    forall i :: n <= i < |log| ==> !RefusedVerbose(log[i])
  }

  /** A handshake adds its version exchange to the log, then its features exchange, and no other. */
  lemma HandshakeLogs(env: Env, c: Client)
    requires c.sock.Some?
    ensures c.log <= Handshake(env, c).0.log && NoVerboseRefused(Handshake(env, c).0.log, |c.log|)
  {
    var (c1, version) := Raw(env, c, Version);
    assert NoVerboseRefused(c1.log, |c.log|);
    if c1.sock.Some? {
      var (c2, features) := Raw(env, c1, Features);
      assert c2.log == c1.log + [Exchange(c1.sock.value, c1.nextId + 1, Features, features)];
      assert NoVerboseRefused(c2.log, |c.log|);
      assert Handshake(env, c).0 == c1 || Handshake(env, c).0.log == c2.log;
    }
  }

  /** Linking a client logs a handshake or nothing. */
  lemma LinkedLog(env: Env, c: Client)
    ensures Linked(env, c).0.log ==
            if c.sock.None? && env.link(c.dialed).opens then Handshake(env, Dialed(env, c)).0.log else c.log
  {
  }

  lemma LinkedLogGrows(env: Env, c: Client)
    ensures c.log <= Linked(env, c).0.log && NoVerboseRefused(Linked(env, c).0.log, |c.log|)
  {
    LinkedLog(env, c);
    if c.sock.None? && env.link(c.dialed).opens {
      HandshakeLogs(env, Dialed(env, c));
    }
  }

  lemma AttemptLogGrows(env: Env, c: Client, m: Method)
    ensures c.log <= Attempt(env, c, m).0.log
  {
    LinkedLogGrows(env, c);
    var (c1, refused) := Linked(env, c);
    if refused.None? {
      assert c1.log <= Asked(env, c1, m).0.log;
    }
  }

  lemma {:induction false} RpcLogGrows(env: Env, c: Client, m: Method, budget: nat)
    ensures c.log <= Rpc(env, c, m, budget).0.log
    decreases budget
  {
    AttemptLogGrows(env, c, m);
    if budget > 0 {
      RpcLogGrows(env, Attempt(env, c, m).0, m, budget - 1);
    }
  }

  lemma FetchLogGrows(env: Env, c: Client, txid: string)
    ensures c.log <= DoFetch(env, c, txid).0.log
  {
    if c.latched {
      RpcLogGrows(env, c, TxRaw(txid), env.retries);
    } else {
      RpcLogGrows(env, c, TxVerbose(txid), env.retries);
      RpcLogGrows(env, Rpc(env, c, TxVerbose(txid), env.retries).0.(latched := true), TxRaw(txid), env.retries);
    }
  }

  lemma StepLogGrows(env: Env, c: Client, op: Op)
    ensures c.log <= Step(env, c, op).0.log
  {
    match op
    case Call(name) => RpcLogGrows(env, c, Other(name), env.retries);
    case SendTx(hex) => RpcLogGrows(env, c, Broadcast(hex), 0);
    case FetchTx(txid) => FetchLogGrows(env, c, txid);
    case Close =>
  }

  lemma RejectionsStay(log: seq<Exchange>, longer: seq<Exchange>)
    requires log <= longer
    ensures SomeVerboseRejected(log) ==> SomeVerboseRejected(longer)
    ensures SomeHandshakeRejected(log) ==> SomeHandshakeRejected(longer)
  {
    assert forall i :: 0 <= i < |log| ==> longer[i] == log[i];
  }

  /** A refused verbose request is one this attempt was for, and ends it in that rejection. */
  lemma AttemptRefusal(env: Env, c: Client, m: Method)
    ensures var (after, r) := Attempt(env, c, m);
            (m.TxVerbose? && r == Failure(Rejected(UNSUPPORTED))) || NoVerboseRefused(after.log, |c.log|)
  {
    LinkedLogGrows(env, c);
    var (c1, refused) := Linked(env, c);
    if refused.None? {
      var outcome := Raw(env, c1, m).1;
      assert Asked(env, c1, m).0.log == c1.log + [Exchange(c1.sock.value, c1.nextId + 1, m, outcome)];
    }
  }

  lemma {:induction false} RpcRefusal(env: Env, c: Client, m: Method, budget: nat)
    ensures var (after, r) := Rpc(env, c, m, budget);
            (m.TxVerbose? && r == Failure(Rejected(UNSUPPORTED))) || NoVerboseRefused(after.log, |c.log|)
    decreases budget
  {
    AttemptRefusal(env, c, m);
    var (c1, r1) := Attempt(env, c, m);
    if r1 == Failure(Transport) && budget > 0 {
      AttemptLogGrows(env, c, m);
      RpcLogGrows(env, c1, m, budget - 1);
      RpcRefusal(env, c1, m, budget - 1);
    }
  }

  lemma NothingRefusedSince(log: seq<Exchange>, longer: seq<Exchange>)
    requires log <= longer && NoVerboseRefused(longer, |log|)
    ensures SomeVerboseRejected(longer) ==> SomeVerboseRejected(log)
  {
    if SomeVerboseRejected(longer) {
      var i :| 0 <= i < |longer| && RefusedVerbose(longer[i]);
      assert log[i] == longer[i];
    }
  }

  /** An operation after which a verbose request stands refused, while none did before, has closed the latch. */
  lemma RefusalCloses(env: Env, c: Client, op: Op)
    requires !SomeVerboseRejected(c.log) && !c.latched
    ensures var after := Step(env, c, op).0;
            SomeVerboseRejected(after.log) ==> after.latched
  {
    match op
    case Call(name) =>
      RpcRefusal(env, c, Other(name), env.retries);
      RpcLogGrows(env, c, Other(name), env.retries);
      NothingRefusedSince(c.log, Rpc(env, c, Other(name), env.retries).0.log);
    case SendTx(hex) =>
      RpcRefusal(env, c, Broadcast(hex), 0);
      RpcLogGrows(env, c, Broadcast(hex), 0);
      NothingRefusedSince(c.log, Rpc(env, c, Broadcast(hex), 0).0.log);
    case FetchTx(txid) =>
      LatchClosesExactly(env, c, txid);
      var (c1, r) := Rpc(env, c, TxVerbose(txid), env.retries);
      if r != Failure(Rejected(UNSUPPORTED)) {
        RpcRefusal(env, c, TxVerbose(txid), env.retries);
        RpcLogGrows(env, c, TxVerbose(txid), env.retries);
        NothingRefusedSince(c.log, c1.log);
        assert Step(env, c, FetchTx(txid)).0 == c1;
      }
    case Close =>
  }

  lemma UnlatchedFetch(env: Env, c: Client, txid: string)
    requires !c.latched
    ensures var (c1, r) := Rpc(env, c, TxVerbose(txid), env.retries);
            Step(env, c, FetchTx(txid)).0 ==
            if r == Failure(Rejected(UNSUPPORTED)) then Rpc(env, c1.(latched := true), TxRaw(txid), env.retries).0 else c1
  {
  }

  lemma RejectionIsLogged(c: Client, txid: string)
    requires RejectedLast(c, TxVerbose(txid), UNSUPPORTED)
    ensures SomeVerboseRejected(c.log) || SomeHandshakeRejected(c.log)
  {
    var last := c.log[|c.log| - 1];
    assert RefusedVerbose(last) || RefusedHandshake(last);
  }

  /** A step that closes the latch leaves the reason in the log. */
  lemma ClosingIsLogged(env: Env, c: Client, txid: string)
    requires !c.latched
    ensures var after := Step(env, c, FetchTx(txid)).0;
            after.latched ==> SomeVerboseRejected(after.log) || SomeHandshakeRejected(after.log)
  {
    LatchClosesExactly(env, c, txid);
    UnlatchedFetch(env, c, txid);
    var (c1, r) := Rpc(env, c, TxVerbose(txid), env.retries);
    if r == Failure(Rejected(UNSUPPORTED)) {
      RejectionIsTheHandshakes(env, c, TxVerbose(txid), env.retries, UNSUPPORTED);
      RejectionIsLogged(c1, txid);
      RpcLogGrows(env, c1.(latched := true), TxRaw(txid), env.retries);
      RejectionsStay(c1.log, Step(env, c, FetchTx(txid)).0.log);
    }
  }

  /**
   What a closed latch means, over every run: a verbose request that was refused for being verbose has closed it, and
   a closed one goes back to such a refusal or to a handshake answered with the same code. So in a run none of whose
   own handshakes was answered so, the latch is closed exactly when a verbose request was refused.
   */
  lemma {:induction false} ClosedLatchMeansVerboseRejected(env: Env, ops: seq<Op>)
    ensures var c := Run(env, ops);
            && (SomeVerboseRejected(c.log) ==> c.latched)
            && (c.latched ==> SomeVerboseRejected(c.log) || SomeHandshakeRejected(c.log))
            && (!SomeHandshakeRejected(c.log) ==> (c.latched <==> SomeVerboseRejected(c.log)))
  {
    if ops == [] {
      assert Run(env, ops) == Init();
    } else {
      var c, op := Run(env, ops[..|ops| - 1]), ops[|ops| - 1];
      ClosedLatchMeansVerboseRejected(env, ops[..|ops| - 1]);
      StepLogGrows(env, c, op);
      RequestsPerCall(env, c, op, Other(""));
      RejectionsStay(c.log, Step(env, c, op).0.log);
      if !c.latched {
        RefusalCloses(env, c, op);
        if op.FetchTx? {
          ClosingIsLogged(env, c, op.txid);
        }
      }
    }
  }

  // ---------------------------------------------------------------- a rightly closed latch

  /** Name and protocol version, as most servers answer. */
  function PlainVersion(): Json {
    JArr([JStr("server"), JStr("1.4")])
  }

  /** A mainnet server without verbose transactions: each of its four lines is the answer to one request. */
  function PlainServer(line: Bytes): Line {
    if line == [49] then Parsed(ResultMessage(1, PlainVersion()))
    else if line == [50] then Parsed(ResultMessage(2, PlainFeatures()))
    else if line == [51] then Parsed(ErrorMessage(3, VERBOSE_UNSUPPORTED))
    else if line == [52] then Parsed(ResultMessage(4, JStr("00")))
    else Blank
  }

  function PlainEnv(): Env {
    Env((k: nat) => Link(true, [[49, NEWLINE, 50, NEWLINE, 51, NEWLINE, 52, NEWLINE]]),
        (id: nat) => true,
        PlainServer,
        0,
        (hex: string) => None,
        (n: int) => true)
  }

  /** A request whose answer is the next line. */
  lemma AnsweredByNextLine(env: Env, c: Client, m: Method, line: Bytes, rest: Bytes, message: Json)
    requires c.sock.Some? && env.sends(c.nextId + 1) && c.pending == line + [NEWLINE] + rest && NEWLINE !in line
    requires env.decode(line) == Parsed(message) && Carries(message, c.nextId + 1)
    ensures Raw(env, c, m) ==
            (c.(pending := rest, nextId := c.nextId + 1, answered := true,
                log := c.log + [Exchange(c.sock.value, c.nextId + 1, m, OutcomeOf(message))]),
             OutcomeOf(message))
  {
    NextLineOf(line, rest);
  }

  function PlainFeatures(): Json {
    JObj(map["genesis_hash" := JStr(MAINNET_GENESIS)])
  }

  function PlainLog(): seq<Exchange> {
    [Exchange(0, 1, Version, Value(PlainVersion())), Exchange(0, 2, Features, Value(PlainFeatures())),
     Exchange(0, 3, TxVerbose("aa"), ServerError(UNSUPPORTED)), Exchange(0, 4, TxRaw("aa"), Value(JStr("00")))]
  }

  /** The next line answers the next request, and goes to it alone. */
  predicate NextAnswers(env: Env, c: Client, line: Bytes, rest: Bytes, message: Json) {
    && c.sock.Some? && env.sends(c.nextId + 1) && c.pending == line + [NEWLINE] + rest && NEWLINE !in line
    && env.decode(line) == Parsed(message) && Carries(message, c.nextId + 1)
  }

  /** The client after an exchange that was answered by the next line. */
  function Advanced(c: Client, m: Method, rest: Bytes, message: Json): Client
    requires c.sock.Some?
  {
    c.(pending := rest, nextId := c.nextId + 1, answered := true,
       log := c.log + [Exchange(c.sock.value, c.nextId + 1, m, OutcomeOf(message))])
  }

  /** A client on the plain server's connection with some of its lines read. */
  predicate Reading(c: Client, k: nat) {
    && k <= 4 && c.sock == Some(0) && c.nextId == k && c.log == PlainLog()[..k]
    && c.pending == [49, NEWLINE, 50, NEWLINE, 51, NEWLINE, 52, NEWLINE][2 * k..]
  }

  function PlainMessage(k: nat): Json {
    match k
    case 0 => ResultMessage(1, PlainVersion())
    case 1 => ResultMessage(2, PlainFeatures())
    case 2 => ErrorMessage(3, VERBOSE_UNSUPPORTED)
    case _ => ResultMessage(4, JStr("00"))
  }

  function PlainRest(k: nat): Bytes
    requires k < 4
  {
    [49, NEWLINE, 50, NEWLINE, 51, NEWLINE, 52, NEWLINE][2 * (k + 1)..]
  }

  lemma PlainMeans(k: nat)
    requires k < 4
    ensures Carries(PlainMessage(k), k + 1)
    ensures OutcomeOf(PlainMessage(k)) == PlainLog()[k].outcome
  {
    MessagesReadBack(1, 1, PlainVersion(), 0);
    MessagesReadBack(2, 2, PlainFeatures(), 0);
    MessagesReadBack(3, 3, JNull, VERBOSE_UNSUPPORTED);
    MessagesReadBack(4, 4, JStr("00"), 0);
  }

  lemma PlainLine(k: nat)
    requires k < 4
    ensures PlainServer([49 + k as Byte]) == Parsed(PlainMessage(k))
    ensures [49, NEWLINE, 50, NEWLINE, 51, NEWLINE, 52, NEWLINE][2 * k..] == [49 + k as Byte] + [NEWLINE] + PlainRest(k)
  {
  }

  /** Each request of the run is answered by the server's next line. */
  lemma PlainNext(c: Client, k: nat)
    requires k < 4 && Reading(c, k)
    ensures NextAnswers(PlainEnv(), c, [49 + k as Byte], PlainRest(k), PlainMessage(k))
    ensures Reading(Advanced(c, PlainLog()[k].rpc, PlainRest(k), PlainMessage(k)), k + 1)
  {
    PlainMeans(k);
    PlainLine(k);
    assert PlainLog()[..k + 1] == PlainLog()[..k] + [PlainLog()[k]];
  }

  lemma PlainRaw(c: Client, k: nat)
    requires k < 4 && Reading(c, k)
    ensures var (after, outcome) := Raw(PlainEnv(), c, PlainLog()[k].rpc);
            Reading(after, k + 1) && outcome == PlainLog()[k].outcome
  {
    PlainNext(c, k);
    PlainMeans(k);
    AnsweredByNextLine(PlainEnv(), c, PlainLog()[k].rpc, [49 + k as Byte], PlainRest(k), PlainMessage(k));
  }

  lemma PlainConnect()
    ensures var (c, refused) := Linked(PlainEnv(), Init());
            Reading(c, 2) && refused.None?
  {
    var c := Dialed(PlainEnv(), Init());
    FlatOne([49, NEWLINE, 50, NEWLINE, 51, NEWLINE, 52, NEWLINE]);
    assert Reading(c, 0);
    PlainRaw(c, 0);
    var c1 := Raw(PlainEnv(), c, Version).0;
    PlainRaw(c1, 1);
    assert ProvesMainnet(PlainLog()[1].outcome);
  }

  lemma PlainFetch()
    ensures var after := Step(PlainEnv(), Init(), FetchTx("aa")).0;
            after.latched && after.log == PlainLog()
  {
    var env := PlainEnv();
    PlainConnect();
    var c := Linked(env, Init()).0;
    PlainRaw(c, 2);
    var (c1, r1) := Attempt(env, Init(), TxVerbose("aa"));
    assert r1 == Failure(Rejected(UNSUPPORTED)) && Reading(c1, 3);
    assert Rpc(env, Init(), TxVerbose("aa"), 0) == (c1, r1);
    var c2 := c1.(latched := true);
    PlainRaw(c2, 3);
    var (c3, r3) := Attempt(env, c2, TxRaw("aa"));
    assert Reading(c3, 4) && Rpc(env, c2, TxRaw("aa"), 0) == (c3, r3);
    UnlatchedFetch(env, Init(), "aa");
    LatchClosesExactly(env, Init(), "aa");
  }

  lemma RunOne(env: Env, op: Op)
    ensures Run(env, [op]) == Step(env, Init(), op).0
  {
    assert [op][..0] == [];
    assert Run(env, []) == Init();
  }

  lemma PlainRefusals()
    ensures SomeVerboseRejected(PlainLog()) && !SomeHandshakeRejected(PlainLog())
  {
    assert RefusedVerbose(PlainLog()[2]);
  }

  /** The latch closes rightly on such a server: its handshake keeps the code to verbose requests, and one was refused. */
  lemma LatchCanCloseRightly()
    ensures var c := Run(PlainEnv(), [FetchTx("aa")]);
            c.latched && SomeVerboseRejected(c.log) && !SomeHandshakeRejected(c.log)
  {
    RunOne(PlainEnv(), FetchTx("aa"));
    PlainFetch();
    PlainRefusals();
  }

  // ---------------------------------------------------------------- a wrongly closed latch

  /** A server whose one line rejects the first request with the "verbose unsupported" code. */
  function RejectingEnv(): Env {
    Env((k: nat) => Link(true, [[123, NEWLINE]]),
        (id: nat) => true,
        (line: Bytes) => Parsed(ErrorMessage(1, VERBOSE_UNSUPPORTED)),
        0,
        (hex: string) => None,
        (n: int) => true)
  }

  lemma RejectedFirst()
    ensures Answer(RejectingEnv().decode, [123, NEWLINE], 1, false) == Match(ErrorMessage(1, VERBOSE_UNSUPPORTED), [])
    ensures OutcomeOf(ErrorMessage(1, VERBOSE_UNSUPPORTED)) == ServerError(Some(VERBOSE_UNSUPPORTED))
  {
    NextLineOf([123], []);
    assert [123] + [NEWLINE] + [] == [123, NEWLINE];
    MessagesReadBack(1, 1, JNull, VERBOSE_UNSUPPORTED);
  }

  lemma RejectedDial(env: Env)
    requires env == RejectingEnv()
    ensures var (after, r) := Attempt(env, Init(), TxVerbose("aa"));
            && after.log == [Exchange(0, 1, Version, ServerError(Some(VERBOSE_UNSUPPORTED)))]
            && r == Failure(Rejected(Some(VERBOSE_UNSUPPORTED)))
  {
    var dialed := Dialed(env, Init());
    FlatOne([123, NEWLINE]);
    assert dialed.pending == [123, NEWLINE];
    RejectedFirst();
    var (c1, version) := Raw(env, dialed, Version);
    assert version == ServerError(Some(VERBOSE_UNSUPPORTED));
    assert c1.log == [] + [Exchange(0, 1, Version, version)];
  }

  /** The handshake can close the latch: no verbose request was ever sent, and none ever will be. */
  lemma HandshakeCanCloseTheLatch()
    ensures var after := Step(RejectingEnv(), Init(), FetchTx("aa")).0;
            after.latched && Sent(after.log, TxVerbose("aa")) == 0
  {
    var env := RejectingEnv();
    RejectedDial(env);
    var (c2, r) := Attempt(env, Init(), TxVerbose("aa"));
    assert Rpc(env, Init(), TxVerbose("aa"), 0) == (c2, r);
    OneMoreSent([], Exchange(0, 1, Version, ServerError(Some(VERBOSE_UNSUPPORTED))), TxVerbose("aa"));
    assert [] + [c2.log[0]] == c2.log;
    RpcCost(env, c2.(latched := true), TxRaw("aa"), 0, TxVerbose("aa"));
  }

  // ---------------------------------------------------------------- chunking

  /** Two networks that deliver the same bytes on every connection, cut into chunks differently. */
  ghost predicate SameBytes(a: Env, b: Env) {
    && a == b.(link := a.link)
    && forall k: nat :: a.link(k).opens == b.link(k).opens && Flat(a.link(k).chunks) == Flat(b.link(k).chunks)
  }

  lemma ChunkingHiddenFromRaw(a: Env, b: Env, c: Client, m: Method)
    requires SameBytes(a, b) && c.sock.Some?
    ensures Raw(a, c, m) == Raw(b, c, m)
  {
  }

  lemma ChunkingHiddenFromConnect(a: Env, b: Env, c: Client)
    requires SameBytes(a, b) && c.sock.None?
    ensures Connect(a, c) == Connect(b, c)
  {
    assert a.link(c.dialed).opens == b.link(c.dialed).opens;
    var dialed := Dialed(a, c);
    assert dialed == Dialed(b, c);
    ChunkingHiddenFromRaw(a, b, dialed, Version);
    var (c1, version) := Raw(a, dialed, Version);
    if c1.sock.Some? {
      ChunkingHiddenFromRaw(a, b, c1, Features);
    }
  }

  lemma ChunkingHiddenFromAttempt(a: Env, b: Env, c: Client, m: Method)
    requires SameBytes(a, b)
    ensures Attempt(a, c, m) == Attempt(b, c, m)
  {
    if c.sock.None? {
      ChunkingHiddenFromConnect(a, b, c);
    }
    var (c1, refused) := Linked(a, c);
    assert Linked(b, c) == (c1, refused);
    if refused.None? {
      ChunkingHiddenFromRaw(a, b, c1, m);
    }
  }

  lemma {:induction false} ChunkingHiddenFromRpc(a: Env, b: Env, c: Client, m: Method, budget: nat)
    requires SameBytes(a, b)
    ensures Rpc(a, c, m, budget) == Rpc(b, c, m, budget)
    decreases budget
  {
    ChunkingHiddenFromAttempt(a, b, c, m);
    if budget > 0 {
      ChunkingHiddenFromRpc(a, b, Attempt(a, c, m).0, m, budget - 1);
    }
  }

  lemma ChunkingHiddenFromStep(a: Env, b: Env, c: Client, op: Op)
    requires SameBytes(a, b)
    ensures Step(a, c, op) == Step(b, c, op)
  {
    match op
    case Call(name) => ChunkingHiddenFromRpc(a, b, c, Other(name), a.retries);
    case SendTx(hex) => ChunkingHiddenFromRpc(a, b, c, Broadcast(hex), 0);
    case FetchTx(txid) =>
      ChunkingHiddenFromRpc(a, b, c, TxRaw(txid), a.retries);
      ChunkingHiddenFromRpc(a, b, c, TxVerbose(txid), a.retries);
      ChunkingHiddenFromRpc(a, b, Rpc(a, c, TxVerbose(txid), a.retries).0.(latched := true), TxRaw(txid), a.retries);
    case Close =>
  }

  /** No run can tell how the bytes were cut: same answers, same ids, same connections. */
  lemma {:induction false} ChunkingIsInvisible(a: Env, b: Env, ops: seq<Op>, op: Op)
    requires SameBytes(a, b)
    ensures Run(a, ops) == Run(b, ops) && Step(a, Run(a, ops), op) == Step(b, Run(b, ops), op)
    decreases |ops|
  {
    if ops != [] {
      ChunkingIsInvisible(a, b, ops[..|ops| - 1], ops[|ops| - 1]);
    }
    ChunkingHiddenFromStep(a, b, Run(a, ops), op);
  }

  // ---------------------------------------------------------------- the client

  lemma FlatSplits(chunks: seq<Bytes>, k: nat)
    requires k < |chunks|
    ensures Flat(chunks[..k + 1]) == Flat(chunks[..k]) + chunks[k]
  {
    assert chunks[..k + 1][..k] == chunks[..k];
  }

  lemma {:induction false} FlatAppends(a: seq<Bytes>, b: seq<Bytes>)
    ensures Flat(a + b) == Flat(a) + Flat(b)
    decreases |b|
  {
    if b == [] {
      assert a + b == a;
    } else {
      var init, last := b[..|b| - 1], b[|b| - 1];
      FlatAppends(a, init);
      assert (a + b)[..|a + b| - 1] == a + init;
      Assoc(Flat(a), Flat(init), last);
    }
  }

  /** With `attempts` left from here a call ends as `settled`; with none left it has ended, unanswered. */
  ghost predicate Settles(env: Env, m: Method, settled: (Client, Result<Json, Refusal>), c: Client, attempts: nat) {
    settled == if attempts == 0 then (c, Failure(Transport)) else Rpc(env, c, m, attempts - 1)
  }

  datatype Wait = Got(message: Json) | Spoiled | Ended

  class ElectrumClient {
    const env: Env
    var sock: Option<nat>
    var buf: Bytes
    var nextId: nat
    var answered: bool
    var verboseTxsUnsupported: bool
    var relayFee: Option<real>
    /** The network's own account: dials made, chunks of the current connection received, and the requests. */
    var dialed: nat
    var received: nat
    var log: seq<Exchange>
    /** The lines handed out on the current connection, each with its newline. */
    ghost var delivered: Bytes

    function Chunks(): seq<Bytes>
      reads this
    {
      if sock.Some? then env.link(sock.value).chunks else []
    }

    /** Bytes in equal bytes out: the delivered lines and the buffer are what was received, nothing else. */
    ghost predicate Valid()
      reads this
    {
      && received <= |Chunks()|
      && delivered + buf == Flat(Chunks()[..received])
      && (sock.None? ==> buf == [])
    }

    ghost function Pending(): Bytes
      requires received <= |Chunks()|
      reads this
    {
      buf + Flat(Chunks()[received..])
    }

    ghost function State(): Client
      requires Valid()
      reads this
    {
      Client(sock, Pending(), nextId, answered, verboseTxsUnsupported, dialed, log, relayFee)
    }

    constructor (env: Env)
      ensures Valid() && this.env == env && State() == Init()
    {
      this.env := env;
      sock, buf, nextId, answered, verboseTxsUnsupported := None, [], 0, false, false;
      dialed, received, log, delivered := 0, 0, [], [];
      relayFee := None;
    }

    /** One chunk more in the buffer. */
    method Receive()
      requires Valid() && received < |Chunks()|
      modifies this`buf, this`received
      ensures Valid() && received == old(received) + 1 && Pending() == old(Pending())
    {
      FlatSplits(Chunks(), received);
      assert Chunks()[received..] == [Chunks()[received]] + Chunks()[received + 1..];
      FlatAppends([Chunks()[received]], Chunks()[received + 1..]);
      FlatOne(Chunks()[received]);
      Assoc(buf, Chunks()[received], Flat(Chunks()[received + 1..]));
      Assoc(delivered, buf, Chunks()[received]);
      buf, received := buf + Chunks()[received], received + 1;
    }

    /** The first line leaves the buffer. */
    method Deliver() returns (line: Bytes)
      requires Valid() && NextLine(buf).Some?
      modifies this`buf, this`delivered
      ensures Valid() && delivered == old(delivered) + line + [NEWLINE]
      ensures NextLine(old(Pending())) == Some((line, Pending()))
    {
      var (l, rest) := NextLine(buf).value;
      NextLineSplits(buf);
      ghost var later := Flat(Chunks()[received..]);
      Assoc(l + [NEWLINE], rest, later);
      NextLineOf(l, rest + later);
      Assoc(delivered, l + [NEWLINE], rest);
      Assoc(delivered, l, [NEWLINE]);
      delivered := delivered + l + [NEWLINE];
      buf := rest;
      line := l;
    }

    /**
     The next line without its newline, or nothing when the stream ends first. Conservation is `Valid`: what was
     delivered and what is buffered always make up exactly the bytes received.
     */
    method ReadLine() returns (line: Option<Bytes>)
      requires Valid() && sock.Some?
      modifies this`buf, this`received, this`delivered
      ensures Valid()
      ensures match NextLine(old(Pending()))
              case None => line.None? && Pending() == old(Pending()) && delivered == old(delivered)
              case Some((l, rest)) => line == Some(l) && Pending() == rest && delivered == old(delivered) + l + [NEWLINE]
    {
      while NextLine(buf).None?
        invariant Valid() && sock.Some?
        invariant Pending() == old(Pending()) && delivered == old(delivered)
        decreases |Chunks()| - received
      {
        if received == |Chunks()| {
          assert Chunks()[received..] == [];
          assert Pending() == buf;
          return None;
        }
        Receive();
      }
      var l := Deliver();
      line := Some(l);
    }

    method DropConnection()
      requires Valid()
      modifies this
      ensures Valid() && State() == Drop(old(State()))
    {
      sock, buf, received := None, [], 0;
      delivered := [];
      assert Chunks() == [];
    }

    /** Reads lines until one carries the id; what is skipped and what ends the wait is in `Answer`. */
    method AwaitAnswer(id: nat) returns (wait: Wait)
      requires Valid() && sock.Some?
      modifies this`buf, this`received, this`delivered
      ensures Valid()
      ensures match Answer(env.decode, old(Pending()), id, answered)
              case Match(message, rest) => wait == Got(message) && Pending() == rest
              case Garbled => wait == Spoiled
              case Silence => wait == Ended && Pending() == Tail(old(Pending()))
    {
      ghost var all := Pending();
      while true
        invariant Valid() && sock.Some?
        invariant Answer(env.decode, all, id, answered) == Answer(env.decode, Pending(), id, answered)
        invariant Tail(all) == Tail(Pending())
        decreases |Pending()|
      {
        var line := ReadLine();
        if line.None? {
          return Ended;
        }
        match env.decode(line.value) {
          case Blank =>
          case Unparsable =>
            if answered {
              return Spoiled;
            }
          case Parsed(message) =>
            if Carries(message, id) {
              return Got(message);
            }
        }
      }
    }

    method Converse(id: nat) returns (outcome: Outcome)
      requires Valid() && sock.Some?
      modifies this
      ensures Valid() && (State(), outcome) == Conversed(env, old(State()), id)
    {
      if !env.sends(id) {
        return Lost;
      }
      var wait := AwaitAnswer(id);
      match wait {
        case Ended =>
          outcome := Lost;
        case Spoiled =>
          DropConnection();
          outcome := BadStream;
        case Got(message) =>
          answered := true;
          outcome := OutcomeOf(message);
      }
    }

    method TakeId() returns (id: nat)
      requires Valid()
      modifies this`nextId
      ensures Valid() && id == old(nextId) + 1 && State() == old(State()).(nextId := id)
    {
      nextId := nextId + 1;
      id := nextId;
    }

    method Record(e: Exchange)
      requires Valid()
      modifies this`log
      ensures Valid() && State() == old(State()).(log := old(log) + [e])
    {
      log := log + [e];
    }

    method RawRequest(m: Method) returns (outcome: Outcome)
      requires Valid() && sock.Some?
      modifies this
      ensures Valid() && (State(), outcome) == Raw(env, old(State()), m)
    {
      var link := sock.value;
      var id := TakeId();
      outcome := Converse(id);
      Record(Exchange(link, id, m, outcome));
    }

    method ShakeHands() returns (refused: Option<Refusal>)
      requires Valid() && sock.Some?
      modifies this
      ensures Valid() && (State(), refused) == Handshake(env, old(State()))
    {
      var version := RawRequest(Version);
      if !version.Value? {
        return Some(RefusalOf(version));
      }
      if !version.json.JStr? && !version.json.JArr? {
        return Some(BadShape);
      }
      var features := RawRequest(Features);
      if !features.Value? {
        return Some(RefusalOf(features));
      }
      if !ProvesMainnet(features) {
        return Some(NotMainnet);
      }
      relayFee := Announced(env, features.json);
      refused := None;
    }

    method Dial() returns (refused: Option<Refusal>)
      requires Valid() && sock.None?
      modifies this
      ensures Valid() && (State(), refused) == Connect(env, old(State()))
    {
      var link := dialed;
      dialed := dialed + 1;
      if !env.link(link).opens {
        return Some(Transport);
      }
      sock, buf, received, answered := Some(link), [], 0, false;
      delivered := [];
      assert Chunks()[..0] == [] && Chunks()[0..] == Chunks();
      assert State() == Dialed(env, old(State()));
      refused := ShakeHands();
      if refused.Some? && refused.value != Transport {
        DropConnection();
      }
    }

    /** One attempt; with `left` retries in hand it settles the call or leaves it to the next. */
    method TryOnce(m: Method, ghost left: nat, ghost settled: (Client, Result<Json, Refusal>))
      returns (r: Result<Json, Refusal>)
      requires Valid() && Settles(env, m, settled, State(), left + 1)
      modifies this
      ensures Valid()
      ensures if r == Failure(Transport) then Settles(env, m, settled, State(), left) else settled == (State(), r)
    {
      if sock.None? {
        var refused := Dial();
        if refused == Some(Transport) {
          DropConnection();
          return Failure(Transport);
        }
        if refused.Some? {
          return Failure(refused.value);
        }
      }
      var outcome := RawRequest(m);
      if outcome.Lost? {
        DropConnection();
        return Failure(Transport);
      }
      r := if outcome.Value? then Success(outcome.json) else Failure(RefusalOf(outcome));
    }

    method CallRpc(m: Method, budget: nat) returns (r: Result<Json, Refusal>)
      requires Valid()
      modifies this
      ensures Valid() && (State(), r) == Rpc(env, old(State()), m, budget)
    {
      ghost var settled := Rpc(env, State(), m, budget);
      for attempt := 0 to budget + 1
        invariant Valid()
        invariant Settles(env, m, settled, State(), budget + 1 - attempt)
      {
        r := TryOnce(m, budget - attempt, settled);
        if r != Failure(Transport) {
          return;
        }
      }
      r := Failure(Transport);
    }

    method Close()
      requires Valid()
      modifies this
      ensures Valid() && State() == Step(env, old(State()), Op.Close).0
      ensures State() == old(State()).(sock := None, pending := [])
    {
      DropConnection();
    }

    method BroadcastTx(hex: string) returns (r: Result<Reply, Refusal>)
      requires Valid()
      modifies this
      ensures Valid() && (State(), r) == Step(env, old(State()), SendTx(hex))
      ensures r.Success? ==> env.txidOf(hex).Some? && r.value == Accepted(env.txidOf(hex).value)
    {
      var expected := env.txidOf(hex);
      if expected.None? {
        return Failure(BadTransaction);
      }
      var reported := CallRpc(Broadcast(hex), 0);
      if reported.Failure? {
        return Failure(reported.error);
      }
      if !TxidHex(reported.value) {
        return Failure(ServerText);
      }
      r := if reported.value.s != expected.value then Failure(WrongTxid) else Success(Accepted(reported.value.s));
    }

    method FetchSerialized(txid: string) returns (r: Result<Reply, Refusal>)
      requires Valid()
      modifies this
      ensures Valid() && (State(), r) == FetchRaw(env, old(State()), txid)
    {
      var raw := CallRpc(TxRaw(txid), env.retries);
      r := if raw.Failure? then Failure(raw.error) else Success(Serialized(raw.value));
    }

    method CloseLatch()
      requires Valid()
      modifies this`verboseTxsUnsupported
      ensures Valid() && State() == old(State()).(latched := true)
    {
      verboseTxsUnsupported := true;
    }

    method FetchTransaction(txid: string) returns (r: Result<Reply, Refusal>)
      requires Valid()
      modifies this
      ensures Valid() && (State(), r) == Step(env, old(State()), FetchTx(txid))
    {
      if !verboseTxsUnsupported {
        var verbose := CallRpc(TxVerbose(txid), env.retries);
        if verbose.Success? {
          return Success(Verbose(verbose.value));
        }
        if verbose.error != Rejected(Some(VERBOSE_UNSUPPORTED)) {
          return Failure(verbose.error);
        }
        CloseLatch();
      }
      r := FetchSerialized(txid);
    }
  }

  lemma FlatOne(chunk: Bytes)
    ensures Flat([chunk]) == chunk
  {
    assert [chunk][..0] == [];
  }
}
