/**
 The Bitcoin Core adapter (src/localwallet/chain/bitcoind.py): the retry loop, the once-per-client gate, and the
 cache in front of the full UTXO walk.

 The node is a sequence of replies, one for every HTTP post in the order the posts are made; every theorem holds
 for all such sequences. Address decoding, transaction hashing, whitespace and decimal text are parameters.
 */
module CoreClient {
  import opened Basics
  import opened JsonValues

  type Script = string

  // ---------------------------------------------------------------- the wire

  /** One HTTP exchange: no answer at all, or a status with a body (`None` when it does not parse). */
  datatype Reply = NetworkError | Http(status: int, size: nat, body: Option<Json>)

  datatype Post =
    | ChainInfo
    | NetworkInfo
    | ScanStart(scripts: set<Script>)
    | RawTransaction(txid: string)
    | SendRaw(hex: string)
    | Read(rpc: string)

  datatype Refusal =
    | Oversized
    | AuthRefused
    | Rejected(rpcCode: Option<int>)
    | BadStatus(code: int)
    | NotJson
    | NotAnEnvelope
    | Exhausted(lastStatus: Option<int>)
    | BadShape
    | NotMainnet
    | TooOld
    | ScanIncomplete
    | BadAddress
    | BadTransaction
    | WrongTxid

  datatype Env = Env(
    node: nat -> Reply,
    retries: nat,
    scriptOf: string -> Option<Script>,
    txidOf: string -> Option<string>,
    isSpace: char -> bool,
    decimalOf: string -> Option<real>,
    addressOf: string -> Option<string>)

  const MAX_RESPONSE_BYTES := 64 * 1024 * 1024
  const MIN_CORE_VERSION := 220000
  const SATS_PER_BTC := 100000000.0

  // ---------------------------------------------------------------- one attempt, and the retry loop

  datatype Attempt = Answered(result: Json) | Retry(status: Option<int>) | Refused(refusal: Refusal)

  function CodeOf(envelope: Json): Option<int> {
    var code := Get(Get(envelope, "error"), "code");
    if code.JInt? then Some(code.n) else None
  }

  function Classify(reply: Reply): Attempt {
    match reply
    case NetworkError => Retry(None)
    case Http(status, size, body) =>
      if size > MAX_RESPONSE_BYTES then Refused(Oversized)
      else if status == 401 || status == 403 then Refused(AuthRefused)
      else if !(200 <= status < 300) then
        if body.Some? && body.value.JObj? && Truthy(Get(body.value, "error")) then Refused(Rejected(CodeOf(body.value)))
        else if status == 429 || status >= 500 then Retry(Some(status))
        else Refused(BadStatus(status))
      else if body.None? then Refused(NotJson)
      else if !body.value.JObj? || "result" !in body.value.members then Refused(NotAnEnvelope)
      else if Get(body.value, "error") != JNull then Refused(Rejected(CodeOf(body.value)))
      else Answered(body.value.members["result"])
  }

  /**
   A retry never resends over a verdict of the node: only a lost connection, or a 429 or 5xx status of an accepted
   size whose body carries no error member, is tried again; an answer needs a 2xx envelope without one.
   */
  lemma RetriedExactlyWhenNoVerdict(reply: Reply)
    ensures Classify(reply).Retry? <==>
              (reply.NetworkError? ||
               (reply.size <= MAX_RESPONSE_BYTES && (reply.status == 429 || reply.status >= 500) &&
                !(reply.body.Some? && Truthy(Get(reply.body.value, "error")))))
    ensures Classify(reply).Answered? ==> reply.Http? && reply.body.Some? && Get(reply.body.value, "error") == JNull
  {
    if reply.Http? && reply.body.Some? && !reply.body.value.JObj? {
      assert Get(reply.body.value, "error") == JNull;
    }
  }

  /** How a request that may be retried `budget` times ends when its first post is the `at`-th: posts made, answer. */
  function Settled(node: nat -> Reply, at: nat, budget: nat): (r: (nat, Result<Json, Refusal>))
    ensures 1 <= r.0 <= budget + 1
    decreases budget
  {
    match Classify(node(at))
    case Answered(v) => (1, Success(v))
    case Refused(e) => (1, Failure(e))
    case Retry(status) =>
      if budget == 0 then (1, Failure(Exhausted(status)))
      else
        var (n, r) := Settled(node, at + 1, budget - 1);
        (n + 1, r)
  }

  /**
   Everything before the last post was retryable and the last one decides: its answer, its refusal, or exhaustion,
   and the last only when the whole budget was spent.
   */
  lemma {:induction false} FirstVerdictDecides(node: nat -> Reply, at: nat, budget: nat)
    ensures var (n, r) := Settled(node, at, budget);
            var last := Classify(node(at + n - 1));
            && (forall i :: at <= i < at + n - 1 ==> Classify(node(i)).Retry?)
            && (last.Retry? ==> n == budget + 1 && r == Failure(Exhausted(last.status)))
            && (last.Answered? ==> r == Success(last.result))
            && (last.Refused? ==> r == Failure(last.refusal))
    decreases budget
  {
    if Classify(node(at)).Retry? && budget > 0 {
      FirstVerdictDecides(node, at + 1, budget - 1);
    }
  }

  // ---------------------------------------------------------------- the client's state

  datatype Row = Row(txid: string, vout: nat, value: nat, height: Option<nat>)

  type Buckets = map<Script, seq<Row>>

  datatype Core = Core(
    gated: bool,
    scripts: set<Script>,
    snapshot: Option<Buckets>,
    covered: set<Script>,
    height: Option<nat>,
    posts: seq<Post>)

  function Init(): Core {
    Core(false, {}, None, {}, None, [])
  }

  function Copies(p: Post, n: nat): (r: seq<Post>)
    ensures |r| == n && forall i :: 0 <= i < n ==> r[i] == p
  {
    seq(n, _ => p)
  }

  function Request(env: Env, c: Core, p: Post, budget: nat): (Core, Result<Json, Refusal>) {
    var (n, r) := Settled(env.node, |c.posts|, budget);
    (c.(posts := c.posts + Copies(p, n)), r)
  }

  function ServesMainnet(info: Result<Json, Refusal>): (r: Option<Refusal>)
    ensures r.None? <==> info.Success? && Get(info.value, "chain") == JStr("main")
  {
    if info.Failure? then Some(info.error)
    else if !info.value.JObj? then Some(BadShape)
    else if Get(info.value, "chain") != JStr("main") then Some(NotMainnet)
    else None
  }

  function RecentEnough(info: Result<Json, Refusal>): (r: Option<Refusal>)
    ensures r.None? <==>
              info.Success? && Get(info.value, "version").JInt? && Get(info.value, "version").n >= MIN_CORE_VERSION
  {
    if info.Failure? then Some(info.error)
    else if !info.value.JObj? then Some(BadShape)
    else
      var version := Get(info.value, "version");
      if version.JInt? && version.n >= MIN_CORE_VERSION then None else Some(TooOld)
  }

  function EnsureGate(env: Env, c: Core): (Core, Option<Refusal>) {
    if c.gated then (c, None)
    else
      var (c1, info) := Request(env, c, ChainInfo, env.retries);
      var refused := ServesMainnet(info);
      if refused.Some? then (c1, refused)
      else
        var (c2, network) := Request(env, c1, NetworkInfo, env.retries);
        var tooOld := RecentEnough(network);
        if tooOld.Some? then (c2, tooOld) else (c2.(gated := true), None)
  }

  function Rpc(env: Env, c: Core, p: Post, budget: nat): (Core, Result<Json, Refusal>) {
    var (c1, refused) := EnsureGate(env, c);
    if refused.Some? then (c1, Failure(refused.value)) else Request(env, c1, p, budget)
  }

  function TipOf(info: Json): Option<nat> {
    var blocks := Get(info, "blocks");
    if blocks.JInt? && blocks.n >= 0 then Some(blocks.n) else None
  }

  function Tip(env: Env, c: Core): (Core, Result<nat, Refusal>) {
    var (c1, info) := Rpc(env, c, ChainInfo, env.retries);
    if info.Failure? then (c1, Failure(info.error))
    else
      var height := TipOf(info.value);
      if height.None? then (c1, Failure(BadShape)) else (c1, Success(height.value))
  }

  // ---------------------------------------------------------------- reading a walk

  /** The amount of bitcoins is exactly this many satoshis. */
  predicate IsAmount(amount: Json, sats: nat) {
    match amount
    case JInt(n) => n * 100000000 == sats
    case JReal(r) => r * SATS_PER_BTC == sats as real
    case _ => false
  }

  /** The whole, non-negative number of satoshis that the amount is, if it is one. */
  function ToSats(amount: Json): (r: Option<nat>)
    ensures r.Some? ==> IsAmount(amount, r.value)
  {
    match amount
    case JInt(i) => if i >= 0 then Some(i * 100000000) else None
    case JReal(d) =>
      var sats := d * SATS_PER_BTC;
      if sats == sats.Floor as real && sats >= 0.0 then Some(sats.Floor) else None
    case _ => None
  }

  /** Every amount that is a number of satoshis converts, and to that number alone. */
  lemma AmountsConvert(amount: Json, sats: nat)
    ensures IsAmount(amount, sats) <==> ToSats(amount) == Some(sats)
  {
    if IsAmount(amount, sats) && amount.JReal? {
      assert (amount.r * SATS_PER_BTC).Floor == sats;
    }
  }

  function NumberOf(env: Env, j: Json): Option<real> {
    match j
    case JInt(i) => Some(i as real)
    case JReal(d) => Some(d)
    case JStr(s) => env.decimalOf(s)
    case _ => None
  }

  function WholeNumberOf(env: Env, j: Json): Option<int> {
    var n := NumberOf(env, j);
    if n.Some? && n.value == n.value.Floor as real then Some(n.value.Floor) else None
  }

  /** A height under either name, in any whole-number spelling; what cannot be read is skipped. */
  function LenientHeight(env: Env, j: Json): Option<int> {
    var first := WholeNumberOf(env, Get(j, "blockheight"));
    if first.Some? then first else WholeNumberOf(env, Get(j, "height"))
  }

  /** A row is confirmed exactly when it proves a positive height. */
  function RowHeight(env: Env, entry: Json): Option<nat> {
    var h := LenientHeight(env, entry);
    if h.Some? && h.value > 0 then Some(h.value) else None
  }

  predicate Trimmed(env: Env, s: string) {
    s != "" && !env.isSpace(s[0]) && !env.isSpace(s[|s| - 1])
  }

  function ParseRow(env: Env, entry: Json): Option<(Script, Row)> {
    var txid, vout, script := Get(entry, "txid"), Get(entry, "vout"), Get(entry, "scriptPubKey");
    if !TxidHex(txid) || !vout.JInt? || vout.n < 0 || !script.JStr? || !Trimmed(env, script.s) then None
    else
      var value := ToSats(Get(entry, "amount"));
      if value.None? then None else Some((script.s, Row(txid.s, vout.n, value.value, RowHeight(env, entry))))
  }

  /** All rows in order; one unreadable row makes the whole walk unreadable. */
  function ParseRows(env: Env, entries: seq<Json>): (r: Option<seq<(Script, Row)>>)
    ensures r.Some? ==> |r.value| == |entries|
  {
    if entries == [] then Some([])
    else
      var init := ParseRows(env, entries[..|entries| - 1]);
      var last := ParseRow(env, entries[|entries| - 1]);
      if init.Some? && last.Some? then Some(init.value + [last.value]) else None
  }

  predicate ListOfObjects(j: Json) {
    j.JArr? && forall i :: 0 <= i < |j.items| ==> j.items[i].JObj?
  }

  datatype Walk = Walk(rows: seq<(Script, Row)>, height: nat)

  /** The envelope checks of a walk's answer, before its rows are read. */
  function WalkRefusal(result: Json): Option<Refusal> {
    if !result.JObj? then Some(BadShape)
    else if Get(result, "success") != JBool(true) then Some(ScanIncomplete)
    else if "complete" in result.members && result.members["complete"] != JBool(true) then Some(ScanIncomplete)
    else if !Get(result, "height").JInt? || Get(result, "height").n < 0 then Some(BadShape)
    else
      var unspents := Get(result, "unspents");
      if ListOfObjects(unspents) then None else Some(BadShape)
  }

  function ParseWalk(env: Env, result: Json): Result<Walk, Refusal> {
    var refused := WalkRefusal(result);
    if refused.Some? then Failure(refused.value)
    else
      var rows := ParseRows(env, Get(result, "unspents").items);
      if rows.None? then Failure(BadShape) else Success(Walk(rows.value, Get(result, "height").n))
  }

  // ---------------------------------------------------------------- reading back what a node reports

  /** Whole satoshis as the decimal number of bitcoins that the node writes. */
  function InBtc(sats: nat): Json {
    JReal(sats as real / SATS_PER_BTC)
  }

  function CoinJson(coin: (Script, Row)): Json {
    var row := coin.1;
    JObj(map["txid" := JStr(row.txid), "vout" := JInt(row.vout),
             "scriptPubKey" := JStr(coin.0), "amount" := InBtc(row.value)] +
         (if row.height.Some? then map["height" := JInt(row.height.value)] else map[]))
  }

  function CoinsJson(coins: seq<(Script, Row)>): (r: seq<Json>)
    ensures |r| == |coins| && forall i :: 0 <= i < |r| ==> r[i].JObj?
  {
    if coins == [] then [] else CoinsJson(coins[..|coins| - 1]) + [CoinJson(coins[|coins| - 1])]
  }

  /** The node's answer to a completed walk. */
  function WalkJson(height: nat, unspents: seq<Json>): Json {
    JObj(map["success" := JBool(true), "height" := JInt(height), "unspents" := JArr(unspents)])
  }

  predicate RealCoin(env: Env, coin: (Script, Row)) {
    TxidHex(JStr(coin.1.txid)) && Trimmed(env, coin.0) && (coin.1.height.Some? ==> coin.1.height.value > 0)
  }

  lemma SatsReadBack(sats: nat)
    ensures ToSats(InBtc(sats)) == Some(sats)
  {
    var d := sats as real / SATS_PER_BTC;
    assert d * SATS_PER_BTC == sats as real;
  }

  lemma CoinReadsBack(env: Env, coin: (Script, Row))
    requires RealCoin(env, coin)
    ensures ParseRow(env, CoinJson(coin)) == Some(coin)
  {
    SatsReadBack(coin.1.value);
    var entry := CoinJson(coin);
    assert Get(entry, "amount") == InBtc(coin.1.value);
    assert Get(entry, "blockheight") == JNull;
    assert Get(entry, "height") == if coin.1.height.Some? then JInt(coin.1.height.value) else JNull;
    assert RowHeight(env, entry) == coin.1.height;
  }

  lemma OneMoreRow(env: Env, entries: seq<Json>, entry: Json)
    requires ParseRows(env, entries).Some? && ParseRow(env, entry).Some?
    ensures ParseRows(env, entries + [entry]) == Some(ParseRows(env, entries).value + [ParseRow(env, entry).value])
  {
    assert (entries + [entry])[..|entries|] == entries;
  }

  lemma {:induction false} CoinsReadBack(env: Env, coins: seq<(Script, Row)>)
    requires forall i :: 0 <= i < |coins| ==> RealCoin(env, coins[i])
    ensures ParseRows(env, CoinsJson(coins)) == Some(coins)
  {
    if coins == [] {
    } else {
      var init, last := coins[..|coins| - 1], coins[|coins| - 1];
      CoinsReadBack(env, init);
      CoinReadsBack(env, last);
      var json := CoinsJson(init);
      assert CoinsJson(coins) == json + [CoinJson(last)];
      OneMoreRow(env, json, CoinJson(last));
      assert coins == init + [last];
    }
  }

  lemma CompletedWalkIsAccepted(height: nat, unspents: seq<Json>)
    requires forall i :: 0 <= i < |unspents| ==> unspents[i].JObj?
    ensures WalkRefusal(WalkJson(height, unspents)) == None
    ensures Get(WalkJson(height, unspents), "unspents") == JArr(unspents)
    ensures Get(WalkJson(height, unspents), "height") == JInt(height)
  {
  }

  /** A completed walk is read as exactly the coins and the height that the node found. */
  lemma ReportReadsBack(env: Env, w: Walk)
    requires forall i :: 0 <= i < |w.rows| ==> RealCoin(env, w.rows[i])
    ensures ParseWalk(env, WalkJson(w.height, CoinsJson(w.rows))) == Success(w)
  {
    CoinsReadBack(env, w.rows);
    CompletedWalkIsAccepted(w.height, CoinsJson(w.rows));
  }

  /** The rows of one script, in walk order. */
  function RowsOf(rows: seq<(Script, Row)>, s: Script): seq<Row> {
    if rows == [] then []
    else RowsOf(rows[..|rows| - 1], s) + (if rows[|rows| - 1].0 == s then [rows[|rows| - 1].1] else [])
  }

  function Bucketed(rows: seq<(Script, Row)>, asked: set<Script>): Buckets {
    map s | s in asked && RowsOf(rows, s) != [] :: RowsOf(rows, s)
  }

  function Lookup(b: Buckets, s: Script): seq<Row> {
    if s in b then b[s] else []
  }

  // ---------------------------------------------------------------- the cached walk

  predicate Served(c: Core, tip: nat, queried: set<Script>) {
    c.snapshot.Some? && c.height == Some(tip) && queried <= c.covered
  }

  function Adopt(c: Core, w: Walk): Core {
    c.(snapshot := Some(Bucketed(w.rows, c.scripts)), covered := c.scripts, height := Some(w.height))
  }

  function WalkNow(env: Env, c: Core): (Core, Result<Buckets, Refusal>) {
    var (c1, result) := Request(env, c, ScanStart(c.scripts), 0);
    if result.Failure? then (c1, Failure(result.error))
    else
      var walk := ParseWalk(env, result.value);
      if walk.Failure? then (c1, Failure(walk.error))
      else
        var c2 := Adopt(c1, walk.value);
        (c2, Success(c2.snapshot.value))
  }

  function Scan(env: Env, c: Core, queried: set<Script>): (Core, Result<Buckets, Refusal>) {
    var (c1, tip) := Tip(env, c);
    if tip.Failure? then (c1, Failure(tip.error))
    else if Served(c1, tip.value, queried) then (c1, Success(c1.snapshot.value))
    else WalkNow(env, c1)
  }

  /** Asking about scripts: they join the asked set first, whatever happens next. */
  function AskAndScan(env: Env, c: Core, queried: set<Script>): (Core, Result<Buckets, Refusal>) {
    Scan(env, c.(scripts := c.scripts + queried), queried)
  }

  // ---------------------------------------------------------------- history

  /** The distinct transaction ids in first-seen order. */
  function Fundings(rows: seq<Row>): seq<string> {
    if rows == [] then []
    else
      var init := Fundings(rows[..|rows| - 1]);
      if rows[|rows| - 1].txid in init then init else init + [rows[|rows| - 1].txid]
  }

  predicate Distinct(txids: seq<string>) {
    forall i, j :: 0 <= i < j < |txids| ==> txids[i] != txids[j]
  }

  /** The height proven by the first row of the transaction that proves one. */
  function ProvenHeight(rows: seq<Row>, txid: string): Option<nat> {
    if rows == [] then None
    else
      var init := ProvenHeight(rows[..|rows| - 1], txid);
      if init.Some? then init else if rows[|rows| - 1].txid == txid then rows[|rows| - 1].height else None
  }

  /** Inputs and outputs are the addresses they could be mapped to; an unmappable one contributes none. */
  datatype TxEntry = TxEntry(
    txid: string, confirmed: bool, height: Option<nat>, time: Option<nat>, fee: Option<nat>,
    inputs: seq<Option<string>>, outputs: seq<Option<string>>)

  /** The address of a script object: as the node names it, in either spelling, or derived from the script. */
  function ScriptAddress(env: Env, script: Json): Option<string> {
    var address, addresses, hex := Get(script, "address"), Get(script, "addresses"), Get(script, "hex");
    if address.JStr? && address.s != "" then Some(address.s)
    else if addresses.JArr? && addresses.items != [] && addresses.items[0].JStr? then Some(addresses.items[0].s)
    else if hex.JStr? then env.addressOf(hex.s)
    else None
  }

  function NonEmpty(address: Option<string>): Option<string> {
    if address == Some("") then None else address
  }

  /** The addresses of a list of inputs, from the outputs they spend, where the node still knows those. */
  function InputAddresses(env: Env, vin: seq<Json>): seq<Option<string>> {
    seq(|vin|, i requires 0 <= i < |vin| => NonEmpty(ScriptAddress(env, Get(Get(vin[i], "prevout"), "scriptPubKey"))))
  }

  function OutputAddresses(env: Env, vout: seq<Json>): seq<Option<string>> {
    seq(|vout|, i requires 0 <= i < |vout| => NonEmpty(ScriptAddress(env, Get(vout[i], "scriptPubKey"))))
  }

  function NonNegative(i: Option<int>): Option<nat> {
    if i.Some? && i.value >= 0 then Some(i.value) else None
  }

  function PlainInt(j: Json): Option<int> {
    if j.JInt? then Some(j.n) else None
  }

  function ToEntry(env: Env, verbose: Json, requested: string, proven: Option<nat>): (r: Option<TxEntry>)
    ensures r.Some? ==> r.value.txid == requested
    ensures r.Some? && r.value.confirmed && proven.Some? ==> r.value.height == proven
    ensures r.Some? && !r.value.confirmed ==> r.value.height.None? && r.value.time.None?
    ensures r.Some? ==> ListOfObjects(Get(verbose, "vin")) && ListOfObjects(Get(verbose, "vout"))
    ensures r.Some? ==> r.value.inputs == InputAddresses(env, Get(verbose, "vin").items)
    ensures r.Some? ==> r.value.outputs == OutputAddresses(env, Get(verbose, "vout").items)
  {
    var txid, confirmations := Get(verbose, "txid"), Get(verbose, "confirmations");
    if !verbose.JObj? || !TxidHex(txid) || txid.s != requested || !confirmations.JInt? || confirmations.n < 0 then None
    else
      var confirmed := confirmations.n > 0;
      var height := if proven.Some? then proven else NonNegative(LenientHeight(env, verbose));
      var time := NonNegative(PlainInt(Get(verbose, "blocktime")));
      var fee := if "fee" in verbose.members then ToSats(verbose.members["fee"]) else None;
      if "fee" in verbose.members && fee.None? then None
      else if !ListOfObjects(Get(verbose, "vin")) || !ListOfObjects(Get(verbose, "vout")) then None
      else
        Some(TxEntry(requested, confirmed, if confirmed then height else None, if confirmed then time else None, fee,
                     InputAddresses(env, Get(verbose, "vin").items), OutputAddresses(env, Get(verbose, "vout").items)))
  }

  /** A script object as the node writes it, with its address when the script has one. */
  function ScriptJson(address: Option<string>): Json {
    JObj(if address.Some? then map["address" := JStr(address.value)] else map[])
  }

  function InputsJson(inputs: seq<Option<string>>): seq<Json> {
    seq(|inputs|, i requires 0 <= i < |inputs| =>
      JObj(if inputs[i].Some? then map["prevout" := JObj(map["scriptPubKey" := ScriptJson(inputs[i])])] else map[]))
  }

  function OutputsJson(outputs: seq<Option<string>>): seq<Json> {
    seq(|outputs|, i requires 0 <= i < |outputs| => JObj(map["scriptPubKey" := ScriptJson(outputs[i])]))
  }

  /** A verbose transaction as the node reports it: no height under any name, inputs with the outputs they spend. */
  function VerboseJson(e: TxEntry, confirmations: nat): Json {
    JObj(map["txid" := JStr(e.txid), "confirmations" := JInt(confirmations),
             "vin" := JArr(InputsJson(e.inputs)), "vout" := JArr(OutputsJson(e.outputs))] +
         (if e.time.Some? then map["blocktime" := JInt(e.time.value)] else map[]) +
         (if e.fee.Some? then map["fee" := InBtc(e.fee.value)] else map[]))
  }

  lemma ScriptReadsBack(env: Env, address: Option<string>)
    requires address != Some("")
    ensures NonEmpty(ScriptAddress(env, ScriptJson(address))) == address
  {
  }

  lemma AddressesReadBack(env: Env, e: TxEntry)
    requires Some("") !in e.inputs && Some("") !in e.outputs
    ensures InputAddresses(env, InputsJson(e.inputs)) == e.inputs
    ensures OutputAddresses(env, OutputsJson(e.outputs)) == e.outputs
  {
    forall i | 0 <= i < |e.inputs|
      ensures InputAddresses(env, InputsJson(e.inputs))[i] == e.inputs[i]
    {
      ScriptReadsBack(env, e.inputs[i]);
    }
    forall i | 0 <= i < |e.outputs|
      ensures OutputAddresses(env, OutputsJson(e.outputs))[i] == e.outputs[i]
    {
      ScriptReadsBack(env, e.outputs[i]);
    }
  }

  lemma VerboseMembers(env: Env, e: TxEntry, confirmations: nat)
    ensures var v := VerboseJson(e, confirmations);
            && Get(v, "txid") == JStr(e.txid) && Get(v, "confirmations") == JInt(confirmations)
            && Get(v, "vin") == JArr(InputsJson(e.inputs)) && Get(v, "vout") == JArr(OutputsJson(e.outputs))
            && LenientHeight(env, v).None?
            && PlainInt(Get(v, "blocktime")) == (if e.time.Some? then Some(e.time.value) else None)
            && ("fee" in v.members <==> e.fee.Some?) && (e.fee.Some? ==> v.members["fee"] == InBtc(e.fee.value))
  {
    var v := VerboseJson(e, confirmations);
    assert Get(v, "blockheight") == JNull && Get(v, "height") == JNull;
  }

  /**
   A reported transaction is read as exactly what was reported, inputs and outputs included, at exactly the height
   its row proved.
   */
  lemma EntryReadsBack(env: Env, e: TxEntry, confirmations: nat)
    requires TxidHex(JStr(e.txid)) && (e.confirmed <==> confirmations > 0)
    requires !e.confirmed ==> e.height.None? && e.time.None?
    requires Some("") !in e.inputs && Some("") !in e.outputs
    ensures ToEntry(env, VerboseJson(e, confirmations), e.txid, e.height) == Some(e)
  {
    VerboseMembers(env, e, confirmations);
    AddressesReadBack(env, e);
    if e.fee.Some? {
      SatsReadBack(e.fee.value);
    }
  }

  /** One verbose read per transaction, in order; the first that fails ends the history. */
  function History(env: Env, c: Core, rows: seq<Row>, txids: seq<string>): (Core, Result<seq<TxEntry>, Refusal>) {
    if txids == [] then (c, Success([]))
    else
      var last := txids[|txids| - 1];
      var (c1, init) := History(env, c, rows, txids[..|txids| - 1]);
      if init.Failure? then (c1, init)
      else
        var (c2, verbose) := Rpc(env, c1, RawTransaction(last), env.retries);
        if verbose.Failure? then (c2, Failure(verbose.error))
        else
          var entry := ToEntry(env, verbose.value, last, ProvenHeight(rows, last));
          if entry.None? then (c2, Failure(BadShape)) else (c2, Success(init.value + [entry.value]))
  }

  // ---------------------------------------------------------------- operations

  datatype Op =
    | Prefetch(addresses: seq<string>)
    | Utxos(address: string)
    | Txs(address: string)
    | Broadcast(hex: string)
    | TipHeight
    | Plain(rpc: string)

  datatype Answer =
    | Nothing
    | Unspent(rows: seq<Row>)
    | Entries(entries: seq<TxEntry>)
    | Txid(txid: string)
    | Height(height: nat)
    | Value(json: Json)

  /** The scripts a scanning operation asks about; nothing when an address is malformed or the call asks nothing. */
  function ScriptsOf(env: Env, addresses: seq<string>): (r: Option<set<Script>>)
    ensures r.Some? <==> forall i :: 0 <= i < |addresses| ==> env.scriptOf(addresses[i]).Some?
    ensures r.Some? ==>
              forall s :: s in r.value <==> exists i :: 0 <= i < |addresses| && env.scriptOf(addresses[i]) == Some(s)
  {
    if addresses == [] then Some({})
    else
      var init := ScriptsOf(env, addresses[..|addresses| - 1]);
      var last := env.scriptOf(addresses[|addresses| - 1]);
      if init.Some? && last.Some? then Some(init.value + {last.value}) else None
  }

  function AddressesOf(op: Op): seq<string> {
    match op
    case Prefetch(addresses) => addresses
    case Utxos(address) => [address]
    case Txs(address) => [address]
    case _ => []
  }

  function DoPrefetch(env: Env, c: Core, addresses: seq<string>): (Core, Result<Answer, Refusal>) {
    var scripts := ScriptsOf(env, addresses);
    if scripts.None? then (c, Failure(BadAddress))
    else if scripts.value == {} then (c, Success(Nothing))
    else
      var (c1, r) := AskAndScan(env, c, scripts.value);
      (c1, if r.Failure? then Failure(r.error) else Success(Nothing))
  }

  function DoUtxos(env: Env, c: Core, address: string): (Core, Result<Answer, Refusal>) {
    var s := env.scriptOf(address);
    if s.None? then (c, Failure(BadAddress))
    else
      var (c1, r) := AskAndScan(env, c, {s.value});
      (c1, if r.Failure? then Failure(r.error) else Success(Unspent(Lookup(r.value, s.value))))
  }

  function DoTxs(env: Env, c: Core, address: string): (Core, Result<Answer, Refusal>) {
    var s := env.scriptOf(address);
    if s.None? then (c, Failure(BadAddress))
    else
      var (c1, r) := AskAndScan(env, c, {s.value});
      if r.Failure? then (c1, Failure(r.error))
      else
        var rows := Lookup(r.value, s.value);
        var (c2, entries) := History(env, c1, rows, Fundings(rows));
        (c2, if entries.Failure? then Failure(entries.error) else Success(Entries(entries.value)))
  }

  function DoBroadcast(env: Env, c: Core, hex: string): (Core, Result<Answer, Refusal>) {
    var expected := env.txidOf(hex);
    if expected.None? then (c, Failure(BadTransaction))
    else
      var (c1, r) := Rpc(env, c, SendRaw(hex), 0);
      (c1, if r.Failure? then Failure(r.error)
           else if !TxidHex(r.value) then Failure(BadShape)
           else if r.value.s != expected.value then Failure(WrongTxid)
           else Success(Txid(r.value.s)))
  }

  function Step(env: Env, c: Core, op: Op): (Core, Result<Answer, Refusal>) {
    match op
    case Prefetch(addresses) => DoPrefetch(env, c, addresses)
    case Utxos(address) => DoUtxos(env, c, address)
    case Txs(address) => DoTxs(env, c, address)
    case Broadcast(hex) => DoBroadcast(env, c, hex)
    case TipHeight =>
      var (c1, r) := Tip(env, c);
      (c1, if r.Failure? then Failure(r.error) else Success(Height(r.value)))
    case Plain(rpc) =>
      var (c1, r) := Rpc(env, c, Read(rpc), env.retries);
      (c1, if r.Failure? then Failure(r.error) else Success(Value(r.value)))
  }

  function RunFrom(env: Env, c: Core, ops: seq<Op>): Core {
    if ops == [] then c else Step(env, RunFrom(env, c, ops[..|ops| - 1]), ops[|ops| - 1]).0
  }

  function Run(env: Env, ops: seq<Op>): Core {
    RunFrom(env, Init(), ops)
  }

  // ---------------------------------------------------------------- what talking may change

  /** Only the wire and the gate flag moved, and the wire only grew. */
  predicate OnlyTalked(before: Core, after: Core) {
    && after == before.(gated := after.gated, posts := after.posts)
    && before.posts <= after.posts
    && (before.gated ==> after.gated)
  }

  lemma RpcOnlyTalks(env: Env, c: Core, p: Post, budget: nat)
    ensures OnlyTalked(c, Rpc(env, c, p, budget).0)
    ensures Rpc(env, c, p, budget).1.Success? ==> Rpc(env, c, p, budget).0.gated
  {
  }

  lemma {:induction false} HistoryOnlyTalks(env: Env, c: Core, rows: seq<Row>, txids: seq<string>)
    ensures OnlyTalked(c, History(env, c, rows, txids).0)
  {
    if txids == [] {
    } else {
      HistoryOnlyTalks(env, c, rows, txids[..|txids| - 1]);
      var c1 := History(env, c, rows, txids[..|txids| - 1]).0;
      RpcOnlyTalks(env, c1, RawTransaction(txids[|txids| - 1]), env.retries);
    }
  }

  // ---------------------------------------------------------------- the gate

  predicate SaysMainnet(reply: Reply) {
    var a := Classify(reply);
    a.Answered? && Get(a.result, "chain") == JStr("main")
  }

  predicate SaysRecent(reply: Reply) {
    var a := Classify(reply);
    a.Answered? && Get(a.result, "version").JInt? && Get(a.result, "version").n >= MIN_CORE_VERSION
  }

  /** Among the first `m` posts the node was asked for its chain, then its version, and both answers pass. */
  ghost predicate Cleared(env: Env, posts: seq<Post>, m: nat)
    requires m <= |posts|
  {
    exists j, k :: 0 <= j < k < m && posts[j] == ChainInfo && SaysMainnet(env.node(j)) &&
                   posts[k] == NetworkInfo && SaysRecent(env.node(k))
  }

  ghost predicate GateFirst(env: Env, c: Core) {
    && (c.gated ==> Cleared(env, c.posts, |c.posts|))
    && forall m :: 0 <= m < |c.posts| && !c.posts[m].ChainInfo? && !c.posts[m].NetworkInfo? ==> Cleared(env, c.posts, m)
  }

  lemma ClearedGrows(env: Env, posts: seq<Post>, longer: seq<Post>, m: nat, n: nat)
    requires m <= |posts| && m <= n <= |longer| && posts <= longer
    requires Cleared(env, posts, m)
    ensures Cleared(env, longer, n)
  {
    var j, k :| 0 <= j < k < m && posts[j] == ChainInfo && SaysMainnet(env.node(j)) &&
                posts[k] == NetworkInfo && SaysRecent(env.node(k));
    assert longer[j] == ChainInfo && longer[k] == NetworkInfo;
  }

  lemma RequestKeepsGate(env: Env, c: Core, p: Post, budget: nat)
    requires GateFirst(env, c) && (c.gated || p.ChainInfo? || p.NetworkInfo?)
    ensures GateFirst(env, Request(env, c, p, budget).0)
  {
    var after := Request(env, c, p, budget).0;
    if c.gated {
      ClearedGrows(env, c.posts, after.posts, |c.posts|, |after.posts|);
    }
    forall m | 0 <= m < |after.posts| && !after.posts[m].ChainInfo? && !after.posts[m].NetworkInfo?
      ensures Cleared(env, after.posts, m)
    {
      if m < |c.posts| {
        assert c.posts[m] == after.posts[m];
        ClearedGrows(env, c.posts, after.posts, m, m);
      } else {
        assert after.posts[m] == p;
        ClearedGrows(env, c.posts, after.posts, |c.posts|, m);
      }
    }
  }

  lemma RpcKeepsGate(env: Env, c: Core, p: Post, budget: nat)
    requires GateFirst(env, c)
    ensures GateFirst(env, Rpc(env, c, p, budget).0)
  {
    EnsureGateKeepsGate(env, c);
    var (c1, refused) := EnsureGate(env, c);
    if refused.None? {
      RequestKeepsGate(env, c1, p, budget);
    }
  }

  /** A question that passes its check was answered, in its last post, with what the check wants. */
  lemma PassedQuestion(env: Env, c: Core, p: Post, budget: nat)
    ensures var (after, r) := Request(env, c, p, budget);
            && |after.posts| > |c.posts| && after.posts[|after.posts| - 1] == p
            && (ServesMainnet(r).None? ==> SaysMainnet(env.node(|after.posts| - 1)))
            && (RecentEnough(r).None? ==> SaysRecent(env.node(|after.posts| - 1)))
  {
    FirstVerdictDecides(env.node, |c.posts|, budget);
  }

  lemma EnsureGateKeepsGate(env: Env, c: Core)
    requires GateFirst(env, c)
    ensures GateFirst(env, EnsureGate(env, c).0)
    ensures EnsureGate(env, c).1.None? ==> EnsureGate(env, c).0.gated
  {
    if !c.gated {
      RequestKeepsGate(env, c, ChainInfo, env.retries);
      PassedQuestion(env, c, ChainInfo, env.retries);
      var (c1, info) := Request(env, c, ChainInfo, env.retries);
      RequestKeepsGate(env, c1, NetworkInfo, env.retries);
      PassedQuestion(env, c1, NetworkInfo, env.retries);
      var (c2, network) := Request(env, c1, NetworkInfo, env.retries);
      if ServesMainnet(info).None? && RecentEnough(network).None? {
        assert c2.posts[|c1.posts| - 1] == c1.posts[|c1.posts| - 1];
        assert Cleared(env, c2.posts, |c2.posts|);
      }
    }
  }

  lemma {:induction false} HistoryKeepsGate(env: Env, c: Core, rows: seq<Row>, txids: seq<string>)
    requires GateFirst(env, c)
    ensures GateFirst(env, History(env, c, rows, txids).0)
  {
    if txids == [] {
    } else {
      HistoryKeepsGate(env, c, rows, txids[..|txids| - 1]);
      var c1 := History(env, c, rows, txids[..|txids| - 1]).0;
      RpcKeepsGate(env, c1, RawTransaction(txids[|txids| - 1]), env.retries);
    }
  }

  lemma ScanIsTipThenWalk(env: Env, c: Core, queried: set<Script>)
    ensures var (c1, tip) := Tip(env, c);
            Scan(env, c, queried).0 == c1 || (tip.Success? && Scan(env, c, queried).0 == WalkNow(env, c1).0)
    ensures Scan(env, c, queried).1.Success? ==>
              Tip(env, c).1.Success? && (Tip(env, c).0.gated ==> Scan(env, c, queried).0.gated)
  {
  }

  lemma TipKeepsGate(env: Env, c: Core)
    requires GateFirst(env, c)
    ensures GateFirst(env, Tip(env, c).0)
    ensures Tip(env, c).1.Success? ==> Tip(env, c).0.gated
  {
    RpcKeepsGate(env, c, ChainInfo, env.retries);
    RpcOnlyTalks(env, c, ChainInfo, env.retries);
  }

  lemma WalkKeepsGate(env: Env, c: Core)
    requires GateFirst(env, c) && c.gated
    ensures GateFirst(env, WalkNow(env, c).0)
  {
    RequestKeepsGate(env, c, ScanStart(c.scripts), 0);
    var after := Request(env, c, ScanStart(c.scripts), 0).0;
    assert WalkNow(env, c).0.posts == after.posts && WalkNow(env, c).0.gated == after.gated;
  }

  lemma AskAndScanKeepsGate(env: Env, c: Core, queried: set<Script>)
    requires GateFirst(env, c)
    ensures GateFirst(env, AskAndScan(env, c, queried).0)
  {
    var asked := c.(scripts := c.scripts + queried);
    ScanIsTipThenWalk(env, asked, queried);
    TipKeepsGate(env, asked);
    var (c1, tip) := Tip(env, asked);
    if tip.Success? {
      WalkKeepsGate(env, c1);
    }
  }

  lemma StepKeepsGate(env: Env, c: Core, op: Op)
    requires GateFirst(env, c)
    ensures GateFirst(env, Step(env, c, op).0)
  {
    match op
    case Prefetch(addresses) =>
      var scripts := ScriptsOf(env, addresses);
      if scripts.Some? { AskAndScanKeepsGate(env, c, scripts.value); }
    case Utxos(address) =>
      var s := env.scriptOf(address);
      if s.Some? { AskAndScanKeepsGate(env, c, {s.value}); }
    case Txs(address) =>
      var s := env.scriptOf(address);
      if s.Some? {
        AskAndScanKeepsGate(env, c, {s.value});
        var (c1, r) := AskAndScan(env, c, {s.value});
        if r.Success? {
          var rows := Lookup(r.value, s.value);
          HistoryKeepsGate(env, c1, rows, Fundings(rows));
        }
      }
    case Broadcast(hex) => RpcKeepsGate(env, c, SendRaw(hex), 0);
    case TipHeight => RpcKeepsGate(env, c, ChainInfo, env.retries);
    case Plain(rpc) => RpcKeepsGate(env, c, Read(rpc), env.retries);
  }

  /**
   In every run, whatever the node answers: each post that is not one of the two gate questions is preceded by an
   answer naming mainnet and, after it, one naming a version no older than the floor.
   */
  lemma {:induction false} EveryPostIsGated(env: Env, ops: seq<Op>)
    ensures GateFirst(env, Run(env, ops))
  {
    if ops == [] {
    } else {
      EveryPostIsGated(env, ops[..|ops| - 1]);
      StepKeepsGate(env, Run(env, ops[..|ops| - 1]), ops[|ops| - 1]);
    }
  }

  // ---------------------------------------------------------------- counting posts

  datatype Kind = AnyWalk | AnySend | Exactly(post: Post)

  predicate Is(p: Post, k: Kind) {
    match k
    case AnyWalk => p.ScanStart?
    case AnySend => p.SendRaw?
    case Exactly(q) => p == q
  }

  function Count(posts: seq<Post>, k: Kind): nat {
    if posts == [] then 0 else Count(posts[..|posts| - 1], k) + (if Is(posts[|posts| - 1], k) then 1 else 0)
  }

  lemma {:induction false} CountCopies(posts: seq<Post>, p: Post, n: nat, k: Kind)
    ensures Count(posts + Copies(p, n), k) == Count(posts, k) + (if Is(p, k) then n else 0)
  {
    if n == 0 {
      assert posts + Copies(p, n) == posts;
    } else {
      CountCopies(posts, p, n - 1, k);
      var all := posts + Copies(p, n);
      assert all[..|all| - 1] == posts + Copies(p, n - 1);
    }
  }

  function GateCost(env: Env, c: Core, k: Kind): nat {
    if c.gated || !k.Exactly? || !(k.post.ChainInfo? || k.post.NetworkInfo?) then 0 else env.retries + 1
  }

  lemma RequestCost(env: Env, c: Core, p: Post, budget: nat, k: Kind)
    ensures var after := Request(env, c, p, budget).0;
            Count(c.posts, k) + (if Is(p, k) then 1 else 0) <= Count(after.posts, k) <=
              Count(c.posts, k) + (if Is(p, k) then budget + 1 else 0)
  {
    CountCopies(c.posts, p, Settled(env.node, |c.posts|, budget).0, k);
  }

  lemma EnsureGateIsTwoRequests(env: Env, c: Core)
    ensures var c1 := Request(env, c, ChainInfo, env.retries).0;
            var c2 := Request(env, c1, NetworkInfo, env.retries).0;
            var posts := EnsureGate(env, c).0.posts;
            if c.gated then posts == c.posts else posts == c1.posts || posts == c2.posts
  {
  }

  lemma EnsureGateCost(env: Env, c: Core, k: Kind)
    ensures Count(c.posts, k) <= Count(EnsureGate(env, c).0.posts, k) <= Count(c.posts, k) + GateCost(env, c, k)
  {
    EnsureGateIsTwoRequests(env, c);
    if !c.gated {
      RequestCost(env, c, ChainInfo, env.retries, k);
      var c1 := Request(env, c, ChainInfo, env.retries).0;
      RequestCost(env, c1, NetworkInfo, env.retries, k);
    }
  }

  lemma RpcCost(env: Env, c: Core, p: Post, budget: nat, k: Kind)
    ensures var after := Rpc(env, c, p, budget).0;
            Count(c.posts, k) <= Count(after.posts, k) <=
              Count(c.posts, k) + GateCost(env, c, k) + (if Is(p, k) then budget + 1 else 0)
  {
    EnsureGateCost(env, c, k);
    RequestCost(env, EnsureGate(env, c).0, p, budget, k);
  }

  predicate Scans(op: Op) {
    op.Prefetch? || op.Utxos? || op.Txs?
  }

  /** How often an operation may post each kind, beyond what the gate costs. */
  function OwnCost(env: Env, op: Op, k: Kind): nat {
    match k
    case AnyWalk => if Scans(op) then 1 else 0
    case AnySend => if op.Broadcast? then 1 else 0
    case Exactly(ChainInfo) => if Scans(op) || op.TipHeight? then env.retries + 1 else 0
    case Exactly(NetworkInfo) => 0
    case Exactly(ScanStart(_)) => if Scans(op) then 1 else 0
    case Exactly(RawTransaction(_)) => if op.Txs? then env.retries + 1 else 0
    case Exactly(SendRaw(hex)) => if op == Broadcast(hex) then 1 else 0
    case Exactly(Read(rpc)) => if op == Plain(rpc) then env.retries + 1 else 0
  }

  predicate WalkKind(k: Kind) {
    k.AnyWalk? || (k.Exactly? && k.post.ScanStart?)
  }

  lemma WalkIsOnePost(env: Env, c: Core)
    ensures WalkNow(env, c).0.posts == c.posts + [ScanStart(c.scripts)]
    ensures WalkNow(env, c).1.Success? ==> WalkNow(env, c).0.covered == WalkNow(env, c).0.scripts == c.scripts
  {
    assert Copies(ScanStart(c.scripts), 1) == [ScanStart(c.scripts)];
  }

  lemma CountOne(posts: seq<Post>, p: Post, k: Kind)
    ensures Count(posts + [p], k) == Count(posts, k) + (if Is(p, k) then 1 else 0)
  {
    assert (posts + [p])[..|posts|] == posts;
  }

  lemma WalkCost(env: Env, c: Core, k: Kind)
    ensures Count(c.posts, k) <= Count(WalkNow(env, c).0.posts, k) <= Count(c.posts, k) + (if WalkKind(k) then 1 else 0)
  {
    WalkIsOnePost(env, c);
    CountOne(c.posts, ScanStart(c.scripts), k);
  }

  lemma ScanningCost(env: Env, k: Kind)
    ensures OwnCost(env, Prefetch([]), k) ==
            (if Is(ChainInfo, k) then env.retries + 1 else 0) + (if WalkKind(k) then 1 else 0)
  {
  }

  lemma AskAndScanCost(env: Env, c: Core, queried: set<Script>, k: Kind)
    ensures var (after, r) := AskAndScan(env, c, queried);
            && Count(c.posts, k) <= Count(after.posts, k)
            && Count(after.posts, k) <= Count(c.posts, k) + GateCost(env, c, k) + OwnCost(env, Prefetch([]), k)
            && (r.Success? ==> after.gated)
  {
    var asked := c.(scripts := c.scripts + queried);
    ScanIsTipThenWalk(env, asked, queried);
    ScanningCost(env, k);
    TipCost(env, asked, k);
    WalkCost(env, Tip(env, asked).0, k);
  }

  lemma TipCost(env: Env, c: Core, k: Kind)
    ensures var (after, r) := Tip(env, c);
            && Count(c.posts, k) <= Count(after.posts, k)
            && Count(after.posts, k) <=
                 Count(c.posts, k) + GateCost(env, c, k) + (if Is(ChainInfo, k) then env.retries + 1 else 0)
            && (r.Success? ==> after.gated)
  {
    RpcCost(env, c, ChainInfo, env.retries, k);
    RpcOnlyTalks(env, c, ChainInfo, env.retries);
  }

  lemma {:induction false} HistoryCost(env: Env, c: Core, rows: seq<Row>, txids: seq<string>, k: Kind)
    requires c.gated
    requires Distinct(txids)
    ensures var after := History(env, c, rows, txids).0;
            && after.gated
            && Count(c.posts, k) <= Count(after.posts, k)
            && Count(after.posts, k) <= Count(c.posts, k) +
                 (if k.Exactly? && k.post.RawTransaction? && k.post.txid in txids then env.retries + 1 else 0)
  {
    if txids == [] {
    } else {
      var init, last := txids[..|txids| - 1], txids[|txids| - 1];
      HistoryCost(env, c, rows, init, k);
      var c1 := History(env, c, rows, init).0;
      RpcCost(env, c1, RawTransaction(last), env.retries, k);
      RpcOnlyTalks(env, c1, RawTransaction(last), env.retries);
      assert last !in init;
    }
  }

  lemma {:induction false} FundingsAreDistinct(rows: seq<Row>)
    ensures Distinct(Fundings(rows))
  {
    if rows == [] {
    } else {
      FundingsAreDistinct(rows[..|rows| - 1]);
    }
  }

  lemma {:induction false} FundingsAreTheRows(rows: seq<Row>, t: string)
    ensures t in Fundings(rows) <==> exists i :: 0 <= i < |rows| && rows[i].txid == t
  {
    if rows == [] {
    } else {
      var init, last := rows[..|rows| - 1], rows[|rows| - 1];
      FundingsAreTheRows(init, t);
      assert forall i :: 0 <= i < |init| ==> rows[i] == init[i];
      assert last == rows[|rows| - 1];
      if last.txid != t {
        assert t in Fundings(rows) <==> t in Fundings(init);
      }
    }
  }

  lemma TxsCost(env: Env, c: Core, address: string, k: Kind)
    ensures var after := DoTxs(env, c, address).0;
            Count(c.posts, k) <= Count(after.posts, k) <=
              Count(c.posts, k) + GateCost(env, c, k) + OwnCost(env, Txs(address), k)
  {
    var s := env.scriptOf(address);
    if s.Some? {
      AskAndScanCost(env, c, {s.value}, k);
      var (c1, r) := AskAndScan(env, c, {s.value});
      if r.Success? {
        var rows := Lookup(r.value, s.value);
        FundingsAreDistinct(rows);
        HistoryCost(env, c1, rows, Fundings(rows), k);
        if k.Exactly? && k.post.RawTransaction? {
          assert OwnCost(env, Prefetch([]), k) == 0;
        }
        assert DoTxs(env, c, address).0 == History(env, c1, rows, Fundings(rows)).0;
      }
    }
  }

  lemma {:induction false} ScanCost(env: Env, c: Core, op: Op, k: Kind)
    requires op.Prefetch? || op.Utxos?
    ensures var after := Step(env, c, op).0;
            Count(c.posts, k) <= Count(after.posts, k) <= Count(c.posts, k) + GateCost(env, c, k) + OwnCost(env, op, k)
  {
    var queried := ScriptsOf(env, AddressesOf(op));
    if queried.Some? {
      AskAndScanCost(env, c, queried.value, k);
    }
    if op.Utxos? {
      OneAddress(env, op.address);
    }
  }

  lemma OneAddress(env: Env, address: string)
    ensures env.scriptOf(address).Some? ==> ScriptsOf(env, [address]) == Some({env.scriptOf(address).value})
    ensures env.scriptOf(address).None? ==> ScriptsOf(env, [address]) == None
  {
    assert [address][..0] == [];
    assert ScriptsOf(env, [address][..0]) == Some({});
    if env.scriptOf(address).Some? {
      var s := env.scriptOf(address).value;
      assert {} + {s} == {s};
    }
  }

  lemma PlainCost(env: Env, c: Core, op: Op, k: Kind)
    requires op.Broadcast? || op.TipHeight? || op.Plain?
    ensures var after := Step(env, c, op).0;
            Count(c.posts, k) <= Count(after.posts, k) <= Count(c.posts, k) + GateCost(env, c, k) + OwnCost(env, op, k)
  {
    var p, budget :=
      if op.Broadcast? then SendRaw(op.hex) else if op.TipHeight? then ChainInfo else Read(op.rpc),
      if op.Broadcast? then 0 else env.retries;
    RpcCost(env, c, p, budget, k);
    assert Step(env, c, op).0 == Rpc(env, c, p, budget).0 || Step(env, c, op).0 == c;
  }

  /**
   The posts of one call: at most one walk for an operation that scans, at most one send and only of the caller's
   own bytes for a broadcast, at most `retries + 1` of any other read, and the gate's two questions only while the
   client has not passed it.
   */
  lemma PostsPerCall(env: Env, c: Core, op: Op, k: Kind)
    ensures var after := Step(env, c, op).0;
            Count(c.posts, k) <= Count(after.posts, k) <= Count(c.posts, k) + GateCost(env, c, k) + OwnCost(env, op, k)
  {
    match op
    case Prefetch(_) => ScanCost(env, c, op, k);
    case Utxos(_) => ScanCost(env, c, op, k);
    case Txs(address) => TxsCost(env, c, address, k);
    case _ => PlainCost(env, c, op, k);
  }

  // ---------------------------------------------------------------- the cache is a walk

  ghost predicate RecordedAt(env: Env, c: Core, i: nat)
    requires i < |c.posts|
  {
    var a := Classify(env.node(i));
    && c.posts[i] == ScanStart(c.covered)
    && a.Answered?
    && ParseWalk(env, a.result).Success?
    && var w := ParseWalk(env, a.result).value;
       c.snapshot == Some(Bucketed(w.rows, c.covered)) && c.height == Some(w.height)
  }

  /** The cache is one posted walk, whole: its rows for the scripts it was sent, and its own height. */
  ghost predicate CacheIsAWalk(env: Env, c: Core) {
    && c.covered <= c.scripts
    && (c.snapshot.Some? ==> c.snapshot.value.Keys <= c.covered)
    && (if c.snapshot.None? then c.height.None? && c.covered == {}
        else exists i :: 0 <= i < |c.posts| && RecordedAt(env, c, i))
  }

  lemma TalkKeepsCache(env: Env, before: Core, after: Core)
    requires CacheIsAWalk(env, before) && OnlyTalked(before, after)
    ensures CacheIsAWalk(env, after)
  {
    if before.snapshot.Some? {
      var i :| 0 <= i < |before.posts| && RecordedAt(env, before, i);
      assert after.posts[i] == before.posts[i];
      assert RecordedAt(env, after, i);
    }
  }

  lemma WalkKeepsCache(env: Env, c: Core)
    requires CacheIsAWalk(env, c)
    ensures CacheIsAWalk(env, WalkNow(env, c).0)
  {
    var c1 := Request(env, c, ScanStart(c.scripts), 0).0;
    TalkKeepsCache(env, c, c1);
    var (after, r) := WalkNow(env, c);
    if r.Success? {
      FirstVerdictDecides(env.node, |c.posts|, 0);
      assert RecordedAt(env, after, |c.posts|);
    }
  }

  lemma AskAndScanKeepsCache(env: Env, c: Core, queried: set<Script>)
    requires CacheIsAWalk(env, c)
    ensures CacheIsAWalk(env, AskAndScan(env, c, queried).0)
  {
    var asked := c.(scripts := c.scripts + queried);
    if c.snapshot.Some? {
      var i :| 0 <= i < |c.posts| && RecordedAt(env, c, i);
      assert RecordedAt(env, asked, i);
    }
    assert CacheIsAWalk(env, asked);
    RpcOnlyTalks(env, asked, ChainInfo, env.retries);
    var (c1, tip) := Tip(env, asked);
    TalkKeepsCache(env, asked, c1);
    if tip.Success? && !Served(c1, tip.value, queried) {
      WalkKeepsCache(env, c1);
    }
  }

  lemma RpcKeepsCache(env: Env, c: Core, p: Post, budget: nat)
    requires CacheIsAWalk(env, c)
    ensures CacheIsAWalk(env, Rpc(env, c, p, budget).0)
  {
    RpcOnlyTalks(env, c, p, budget);
    TalkKeepsCache(env, c, Rpc(env, c, p, budget).0);
  }

  lemma TxsKeepsCache(env: Env, c: Core, address: string)
    requires CacheIsAWalk(env, c)
    ensures CacheIsAWalk(env, DoTxs(env, c, address).0)
  {
    var s := env.scriptOf(address);
    if s.Some? {
      AskAndScanKeepsCache(env, c, {s.value});
      var (c1, r) := AskAndScan(env, c, {s.value});
      if r.Success? {
        var rows := Lookup(r.value, s.value);
        HistoryOnlyTalks(env, c1, rows, Fundings(rows));
        TalkKeepsCache(env, c1, History(env, c1, rows, Fundings(rows)).0);
      }
    }
  }

  lemma {:induction false} StepKeepsCache(env: Env, c: Core, op: Op)
    requires CacheIsAWalk(env, c)
    ensures CacheIsAWalk(env, Step(env, c, op).0)
  {
    match op
    case Prefetch(addresses) =>
      var scripts := ScriptsOf(env, addresses);
      if scripts.Some? { AskAndScanKeepsCache(env, c, scripts.value); }
    case Utxos(address) =>
      var s := env.scriptOf(address);
      if s.Some? { AskAndScanKeepsCache(env, c, {s.value}); }
    case Txs(address) => TxsKeepsCache(env, c, address);
    case Broadcast(hex) => RpcKeepsCache(env, c, SendRaw(hex), 0);
    case TipHeight => RpcKeepsCache(env, c, ChainInfo, env.retries);
    case Plain(rpc) => RpcKeepsCache(env, c, Read(rpc), env.retries);
  }

  /** In every run: snapshot keys are covered, covered scripts were asked, and the cache is one of the posted walks. */
  lemma {:induction false} CacheIsAlwaysAWalk(env: Env, ops: seq<Op>)
    ensures CacheIsAWalk(env, Run(env, ops))
  {
    if ops == [] {
    } else {
      CacheIsAlwaysAWalk(env, ops[..|ops| - 1]);
      StepKeepsCache(env, Run(env, ops[..|ops| - 1]), ops[|ops| - 1]);
    }
  }

  /** What a state remembers of scripts and walks. */
  predicate SameCache(a: Core, b: Core) {
    a.snapshot == b.snapshot && a.covered == b.covered && a.height == b.height
  }

  lemma WalkReplacesOrKeeps(env: Env, c: Core)
    ensures var (after, r) := WalkNow(env, c);
            && after.scripts == c.scripts
            && (r.Failure? ==> SameCache(after, c))
            && (r.Success? ==> after.snapshot == Some(r.value) && after.covered == c.scripts)
  {
  }

  /**
   A scan that fails, at whatever check, leaves the cache as it was and still remembers the scripts; one that
   succeeds answers from a cache that covers every script of the question.
   */
  lemma {:induction false} FailedScanKeepsCache(env: Env, c: Core, queried: set<Script>)
    requires CacheIsAWalk(env, c)
    ensures var (after, r) := AskAndScan(env, c, queried);
            && after.scripts == c.scripts + queried
            && (r.Failure? ==> SameCache(after, c))
            && (r.Success? ==> after.snapshot == Some(r.value) && queried <= after.covered)
  {
    var asked := c.(scripts := c.scripts + queried);
    RpcOnlyTalks(env, asked, ChainInfo, env.retries);
    var (c1, tip) := Tip(env, asked);
    assert SameCache(c1, c) && c1.scripts == asked.scripts;
    WalkReplacesOrKeeps(env, c1);
  }

  // ---------------------------------------------------------------- refinement of a fresh scan

  /** A node whose UTXO set is a function of height: each walk shows that height's rows for every script it was sent. */
  ghost predicate Honest(env: Env, posts: seq<Post>, utxoAt: nat -> seq<(Script, Row)>) {
    forall i :: 0 <= i < |posts| && posts[i].ScanStart? ==> HonestAt(env, i, posts[i].scripts, utxoAt)
  }

  ghost predicate HonestAt(env: Env, i: nat, asked: set<Script>, utxoAt: nat -> seq<(Script, Row)>) {
    var a := Classify(env.node(i));
    a.Answered? && ParseWalk(env, a.result).Success? ==>
      var w := ParseWalk(env, a.result).value;
      forall s :: s in asked ==> RowsOf(w.rows, s) == RowsOf(utxoAt(w.height), s)
  }

  /** Whatever a cache that is a walk answers for a covered script is that script's rows at the walk's height. */
  lemma CacheAgrees(env: Env, c: Core, s: Script, utxoAt: nat -> seq<(Script, Row)>)
    requires CacheIsAWalk(env, c) && Honest(env, c.posts, utxoAt)
    requires c.snapshot.Some? && s in c.covered
    ensures c.height.Some? && Lookup(c.snapshot.value, s) == RowsOf(utxoAt(c.height.value), s)
  {
    var i :| 0 <= i < |c.posts| && RecordedAt(env, c, i);
    assert HonestAt(env, i, c.posts[i].scripts, utxoAt);
  }

  /** The last post is the tip question, and this is the height it was answered with. */
  predicate TipJustRead(env: Env, posts: seq<Post>, tip: nat) {
    posts != [] &&
    var a := Classify(env.node(|posts| - 1));
    posts[|posts| - 1] == ChainInfo && a.Answered? && TipOf(a.result) == Some(tip)
  }

  lemma TipReads(env: Env, c: Core)
    ensures var (after, r) := Tip(env, c);
            && OnlyTalked(c, after)
            && (r.Success? ==> TipJustRead(env, after.posts, r.value) && after.gated)
  {
    RpcOnlyTalks(env, c, ChainInfo, env.retries);
    var c1 := EnsureGate(env, c).0;
    FirstVerdictDecides(env.node, |c1.posts|, env.retries);
  }

  /**
   How a successful scan was served: from the cache, exactly when it covers the question at the tip just read, or
   else from a walk posted after that reading, over every script asked so far.
   */
  lemma HowScansAreServed(env: Env, c: Core, queried: set<Script>)
    requires AskAndScan(env, c, queried).1.Success?
    ensures var after := AskAndScan(env, c, queried).0;
            && |after.posts| > 0
            && (if after.posts[|after.posts| - 1].ScanStart? then
                  && after.posts[|after.posts| - 1] == ScanStart(c.scripts + queried)
                  && after.covered == after.scripts == c.scripts + queried
                  && exists tip: nat :: TipJustRead(env, after.posts[..|after.posts| - 1], tip) &&
                       !(c.snapshot.Some? && c.height == Some(tip) && queried <= c.covered)
                else
                  && (after.snapshot, after.covered, after.height) == (c.snapshot, c.covered, c.height)
                  && c.height.Some? && queried <= c.covered
                  && TipJustRead(env, after.posts, c.height.value))
  {
    var asked := c.(scripts := c.scripts + queried);
    TipReads(env, asked);
    var (c1, tip) := Tip(env, asked);
    if !Served(c1, tip.value, queried) {
      var after := WalkNow(env, c1).0;
      assert after.posts == c1.posts + Copies(ScanStart(c1.scripts), 1);
      assert after.posts[..|after.posts| - 1] == c1.posts;
    }
  }

  /**
   The refinement. After any run, against any node whose UTXO set is a function of height, `get_address_utxos`
   answers exactly the rows that script has at the serving walk's height, row for row and in order.
   */
  lemma {:induction false} UtxosRefineAFreshScan(env: Env, ops: seq<Op>, address: string,
                                                 utxoAt: nat -> seq<(Script, Row)>)
    requires Honest(env, Step(env, Run(env, ops), Utxos(address)).0.posts, utxoAt)
    ensures var (after, r) := Step(env, Run(env, ops), Utxos(address));
            r.Success? ==>
              && env.scriptOf(address).Some? && after.height.Some?
              && r.value == Unspent(RowsOf(utxoAt(after.height.value), env.scriptOf(address).value))
  {
    var c := Run(env, ops);
    var s := env.scriptOf(address);
    CacheIsAlwaysAWalk(env, ops);
    StepKeepsCache(env, c, Utxos(address));
    if s.Some? && AskAndScan(env, c, {s.value}).1.Success? {
      FailedScanKeepsCache(env, c, {s.value});
      CacheAgrees(env, Step(env, c, Utxos(address)).0, s.value, utxoAt);
    }
  }

  // ---------------------------------------------------------------- history

  predicate EntryMatches(e: TxEntry, rows: seq<Row>, txid: string) {
    && e.txid == txid
    && (e.confirmed && ProvenHeight(rows, txid).Some? ==> e.height == ProvenHeight(rows, txid))
    && (!e.confirmed ==> e.height.None? && e.time.None?)
  }

  /** Each entry is the transaction it was asked for, in order, at the height its row proved. */
  predicate Matches(entries: seq<TxEntry>, rows: seq<Row>, txids: seq<string>) {
    |entries| == |txids| && forall i :: 0 <= i < |txids| ==> EntryMatches(entries[i], rows, txids[i])
  }

  lemma OneMoreMatches(entries: seq<TxEntry>, e: TxEntry, rows: seq<Row>, txids: seq<string>)
    requires txids != [] && Matches(entries, rows, txids[..|txids| - 1]) && EntryMatches(e, rows, txids[|txids| - 1])
    ensures Matches(entries + [e], rows, txids)
  {
    forall i | 0 <= i < |txids|
      ensures EntryMatches((entries + [e])[i], rows, txids[i])
    {
      assert i < |txids| - 1 ==> txids[..|txids| - 1][i] == txids[i];
    }
  }

  lemma {:induction false} HistoryMatches(env: Env, c: Core, rows: seq<Row>, txids: seq<string>)
    ensures var r := History(env, c, rows, txids).1;
            r.Success? ==> Matches(r.value, rows, txids)
  {
    if txids == [] {
    } else {
      var init, last := txids[..|txids| - 1], txids[|txids| - 1];
      HistoryMatches(env, c, rows, init);
      var r := History(env, c, rows, txids).1;
      if r.Success? {
        var (c1, earlier) := History(env, c, rows, init);
        var verbose := Rpc(env, c1, RawTransaction(last), env.retries).1;
        var entry := ToEntry(env, verbose.value, last, ProvenHeight(rows, last));
        OneMoreMatches(earlier.value, entry.value, rows, txids);
      }
    }
  }

  lemma {:induction false} HeightIsTheFirstProven(rows: seq<Row>, txid: string)
    ensures match ProvenHeight(rows, txid)
            case None => forall i :: 0 <= i < |rows| && rows[i].txid == txid ==> rows[i].height.None?
            case Some(h) => exists i :: 0 <= i < |rows| && rows[i].txid == txid && rows[i].height == Some(h) &&
                              forall j :: 0 <= j < i && rows[j].txid == txid ==> rows[j].height.None?
  {
    if rows == [] {
    } else {
      var init, last := rows[..|rows| - 1], rows[|rows| - 1];
      HeightIsTheFirstProven(init, txid);
      assert forall i :: 0 <= i < |init| ==> rows[i] == init[i];
      assert rows[|rows| - 1] == last;
      var h := ProvenHeight(init, txid);
      if h.Some? {
        var i :| 0 <= i < |init| && init[i].txid == txid && init[i].height == h &&
                 forall j :: 0 <= j < i && init[j].txid == txid ==> init[j].height.None?;
        assert rows[i].txid == txid && rows[i].height == h;
      }
    }
  }

  /**
   After any run, `get_address_txs` lists exactly the transactions funding the script at the serving walk's height,
   each once, in first-seen order, each bound to the transaction asked for and to the height its rows prove.
   */
  lemma {:induction false} HistoryListsFundingsOnce(env: Env, ops: seq<Op>, address: string,
                                                    utxoAt: nat -> seq<(Script, Row)>)
    requires Honest(env, Step(env, Run(env, ops), Txs(address)).0.posts, utxoAt)
    ensures var (after, r) := Step(env, Run(env, ops), Txs(address));
            r.Success? ==>
              && env.scriptOf(address).Some? && after.height.Some? && r.value.Entries?
              && var rows := RowsOf(utxoAt(after.height.value), env.scriptOf(address).value);
                 Distinct(Fundings(rows)) && Matches(r.value.entries, rows, Fundings(rows))
  {
    var c := Run(env, ops);
    var s := env.scriptOf(address);
    CacheIsAlwaysAWalk(env, ops);
    if s.Some? && AskAndScan(env, c, {s.value}).1.Success? {
      AskAndScanKeepsCache(env, c, {s.value});
      FailedScanKeepsCache(env, c, {s.value});
      var (c1, r) := AskAndScan(env, c, {s.value});
      var rows := Lookup(r.value, s.value);
      HistoryOnlyTalks(env, c1, rows, Fundings(rows));
      var after := History(env, c1, rows, Fundings(rows)).0;
      TalkKeepsCache(env, c1, after);
      CacheAgrees(env, after, s.value, utxoAt);
      FundingsAreDistinct(rows);
      HistoryMatches(env, c1, rows, Fundings(rows));
    }
  }

  // ---------------------------------------------------------------- how many walks

  /** Every reading of the tip in these posts gave `tip`. */
  ghost predicate TipStays(env: Env, posts: seq<Post>, tip: nat) {
    forall i :: 0 <= i < |posts| && posts[i] == ChainInfo ==> TipAt(env, i, tip)
  }

  ghost predicate TipAt(env: Env, i: nat, tip: nat) {
    var a := Classify(env.node(i));
    a.Answered? && TipOf(a.result).Some? ==> TipOf(a.result) == Some(tip)
  }

  /** The walk posted as the `i`-th post was read in full and was taken at `tip`. */
  predicate GoodWalk(env: Env, i: nat, tip: nat) {
    var a := Classify(env.node(i));
    a.Answered? && ParseWalk(env, a.result).Success? && ParseWalk(env, a.result).value.height == tip
  }

  /** The posted walks that failed, or that were taken at another height. */
  function Wasted(env: Env, posts: seq<Post>, tip: nat): nat {
    if posts == [] then 0
    else
      Wasted(env, posts[..|posts| - 1], tip) +
      (if posts[|posts| - 1].ScanStart? && !GoodWalk(env, |posts| - 1, tip) then 1 else 0)
  }

  predicate Introduces(env: Env, c: Core, op: Op) {
    var queried := ScriptsOf(env, AddressesOf(op));
    Scans(op) && queried.Some? && !(queried.value <= c.scripts)
  }

  /** The calls of a run that ask about a script no earlier call asked about. */
  function Introductions(env: Env, ops: seq<Op>): nat {
    if ops == [] then 0
    else
      Introductions(env, ops[..|ops| - 1]) +
      (if Introduces(env, Run(env, ops[..|ops| - 1]), ops[|ops| - 1]) then 1 else 0)
  }

  /** The cache answers everything asked so far, at this tip. */
  predicate Current(c: Core, tip: nat) {
    c.snapshot.Some? && c.height == Some(tip) && c.covered == c.scripts
  }

  /** One walk is owed while something was asked and the cache does not answer it. */
  function Owed(c: Core, tip: nat): nat {
    if c.scripts == {} || Current(c, tip) then 0 else 1
  }

  lemma {:induction false} WastedSkipsTalk(env: Env, posts: seq<Post>, longer: seq<Post>, tip: nat)
    requires posts <= longer && Count(longer, AnyWalk) == Count(posts, AnyWalk)
    ensures Wasted(env, longer, tip) == Wasted(env, posts, tip)
    decreases |longer|
  {
    if |longer| == |posts| {
      assert longer == posts;
    } else {
      var init := longer[..|longer| - 1];
      CountGrows(posts, init, AnyWalk);
      WastedSkipsTalk(env, posts, init, tip);
    }
  }

  lemma {:induction false} CountGrows(posts: seq<Post>, longer: seq<Post>, k: Kind)
    requires posts <= longer
    ensures Count(posts, k) <= Count(longer, k)
    decreases |longer|
  {
    if |longer| == |posts| {
      assert longer == posts;
    } else {
      CountGrows(posts, longer[..|longer| - 1], k);
    }
  }

  ghost predicate Balanced(env: Env, c: Core, tip: nat, introductions: nat) {
    Count(c.posts, AnyWalk) + Owed(c, tip) <= introductions + Wasted(env, c.posts, tip)
  }

  lemma TalkKeepsBalance(env: Env, before: Core, after: Core, tip: nat, n: nat)
    requires Balanced(env, before, tip, n) && OnlyTalked(before, after)
    requires Count(after.posts, AnyWalk) == Count(before.posts, AnyWalk)
    ensures Balanced(env, after, tip, n)
  {
    WastedSkipsTalk(env, before.posts, after.posts, tip);
  }

  lemma GoodWalkIsAdopted(env: Env, c: Core, tip: nat)
    requires GoodWalk(env, |c.posts|, tip)
    ensures Current(WalkNow(env, c).0, tip)
  {
    FirstVerdictDecides(env.node, |c.posts|, 0);
  }

  lemma OneMorePost(env: Env, posts: seq<Post>, p: Post, tip: nat)
    ensures Count(posts + [p], AnyWalk) == Count(posts, AnyWalk) + (if p.ScanStart? then 1 else 0)
    ensures Wasted(env, posts + [p], tip) ==
            Wasted(env, posts, tip) + (if p.ScanStart? && !GoodWalk(env, |posts|, tip) then 1 else 0)
  {
    assert (posts + [p])[..|posts|] == posts;
  }

  lemma WalkKeepsBalance(env: Env, c: Core, tip: nat, n: nat)
    requires Count(c.posts, AnyWalk) + 1 <= n + Wasted(env, c.posts, tip)
    ensures Balanced(env, WalkNow(env, c).0, tip, n)
  {
    var after := WalkNow(env, c).0;
    WalkIsOnePost(env, c);
    OneMorePost(env, c.posts, ScanStart(c.scripts), tip);
    if GoodWalk(env, |c.posts|, tip) {
      GoodWalkIsAdopted(env, c, tip);
      assert Owed(after, tip) == 0;
    } else {
      assert Owed(after, tip) <= 1;
    }
  }

  /** The state in which the walk is decided: the scripts are noted and the tip was read. */
  function AtTheTip(env: Env, c: Core, queried: set<Script>): (Core, Result<nat, Refusal>) {
    Tip(env, c.(scripts := c.scripts + queried))
  }

  lemma AskAndScanGrows(env: Env, c: Core, queried: set<Script>)
    ensures c.posts <= AtTheTip(env, c, queried).0.posts <= AskAndScan(env, c, queried).0.posts
  {
    RpcOnlyTalks(env, c.(scripts := c.scripts + queried), ChainInfo, env.retries);
  }

  lemma OnlyTheTipIsRead(env: Env, c: Core, queried: set<Script>, tip: nat)
    requires TipStays(env, AskAndScan(env, c, queried).0.posts, tip)
    ensures AtTheTip(env, c, queried).1.Success? ==> AtTheTip(env, c, queried).1.value == tip
  {
    AskAndScanGrows(env, c, queried);
    TipReads(env, c.(scripts := c.scripts + queried));
    var (c1, read) := AtTheTip(env, c, queried);
    if read.Success? {
      var after := AskAndScan(env, c, queried).0;
      assert after.posts[|c1.posts| - 1] == ChainInfo;
      assert TipAt(env, |c1.posts| - 1, tip);
    }
  }

  lemma AskingKeepsBalance(env: Env, c: Core, queried: set<Script>, tip: nat, n: nat)
    requires CacheIsAWalk(env, c) && Balanced(env, c, tip, n)
    ensures Balanced(env, AtTheTip(env, c, queried).0, tip, if queried <= c.scripts then n else n + 1)
  {
    var m := if queried <= c.scripts then n else n + 1;
    var asked := c.(scripts := c.scripts + queried);
    if queried <= c.scripts {
      assert asked == c;
    }
    assert Balanced(env, asked, tip, m);
    TipReads(env, asked);
    TipCost(env, asked, AnyWalk);
    TalkKeepsBalance(env, asked, Tip(env, asked).0, tip, m);
  }

  lemma AskAndScanKeepsBalance(env: Env, c: Core, queried: set<Script>, tip: nat, n: nat)
    requires CacheIsAWalk(env, c) && Balanced(env, c, tip, n) && queried != {}
    requires TipStays(env, AskAndScan(env, c, queried).0.posts, tip)
    ensures Balanced(env, AskAndScan(env, c, queried).0, tip, if queried <= c.scripts then n else n + 1)
  {
    AskingKeepsBalance(env, c, queried, tip, n);
    OnlyTheTipIsRead(env, c, queried, tip);
    var (c1, read) := AtTheTip(env, c, queried);
    if read.Success? && !Served(c1, tip, queried) {
      RpcOnlyTalks(env, c.(scripts := c.scripts + queried), ChainInfo, env.retries);
      assert queried <= c1.scripts;
      assert Owed(c1, tip) == 1;
      WalkKeepsBalance(env, c1, tip, if queried <= c.scripts then n else n + 1);
    }
  }

  lemma RpcKeepsBalance(env: Env, c: Core, p: Post, budget: nat, tip: nat, n: nat)
    requires Balanced(env, c, tip, n) && !p.ScanStart?
    ensures Balanced(env, Rpc(env, c, p, budget).0, tip, n)
  {
    RpcOnlyTalks(env, c, p, budget);
    RpcCost(env, c, p, budget, AnyWalk);
    TalkKeepsBalance(env, c, Rpc(env, c, p, budget).0, tip, n);
  }

  lemma ScanKeepsBalance(env: Env, c: Core, op: Op, tip: nat, n: nat)
    requires op.Prefetch? || op.Utxos?
    requires CacheIsAWalk(env, c) && Balanced(env, c, tip, n)
    ensures var after := Step(env, c, op).0;
            TipStays(env, after.posts, tip) ==> Balanced(env, after, tip, if Introduces(env, c, op) then n + 1 else n)
  {
    if op.Utxos? {
      OneAddress(env, op.address);
    }
    var queried := ScriptsOf(env, AddressesOf(op));
    if queried.Some? && queried.value != {} && TipStays(env, Step(env, c, op).0.posts, tip) {
      AskAndScanKeepsBalance(env, c, queried.value, tip, n);
    }
  }

  lemma {:induction false} StepKeepsBalance(env: Env, c: Core, op: Op, tip: nat, n: nat)
    requires CacheIsAWalk(env, c) && Balanced(env, c, tip, n)
    ensures var after := Step(env, c, op).0;
            TipStays(env, after.posts, tip) ==> Balanced(env, after, tip, if Introduces(env, c, op) then n + 1 else n)
  {
    match op
    case Prefetch(_) => ScanKeepsBalance(env, c, op, tip, n);
    case Utxos(_) => ScanKeepsBalance(env, c, op, tip, n);
    case Txs(address) => TxsKeepsBalance(env, c, address, tip, n);
    case Broadcast(hex) => RpcKeepsBalance(env, c, SendRaw(hex), 0, tip, n);
    case TipHeight => RpcKeepsBalance(env, c, ChainInfo, env.retries, tip, n);
    case Plain(rpc) => RpcKeepsBalance(env, c, Read(rpc), env.retries, tip, n);
  }

  lemma {:induction false} TxsKeepsBalance(env: Env, c: Core, address: string, tip: nat, n: nat)
    requires CacheIsAWalk(env, c) && Balanced(env, c, tip, n)
    ensures var after := DoTxs(env, c, address).0;
            TipStays(env, after.posts, tip) ==>
              Balanced(env, after, tip, if Introduces(env, c, Txs(address)) then n + 1 else n)
  {
    OneAddress(env, address);
    var s := env.scriptOf(address);
    if s.Some? && TipStays(env, DoTxs(env, c, address).0.posts, tip) {
      var (c1, r) := AskAndScan(env, c, {s.value});
      if r.Success? {
        var rows := Lookup(r.value, s.value);
        var after := History(env, c1, rows, Fundings(rows)).0;
        HistoryOnlyTalks(env, c1, rows, Fundings(rows));
        AskAndScanCost(env, c, {s.value}, AnyWalk);
        FundingsAreDistinct(rows);
        HistoryCost(env, c1, rows, Fundings(rows), AnyWalk);
        TipStaysEarlier(env, c1.posts, after.posts, tip);
        AskAndScanKeepsBalance(env, c, {s.value}, tip, n);
        TalkKeepsBalance(env, c1, after, tip, if Introduces(env, c, Txs(address)) then n + 1 else n);
      } else {
        AskAndScanKeepsBalance(env, c, {s.value}, tip, n);
      }
    }
  }

  lemma TipStaysEarlier(env: Env, posts: seq<Post>, longer: seq<Post>, tip: nat)
    requires posts <= longer && TipStays(env, longer, tip)
    ensures TipStays(env, posts, tip)
  {
    forall i | 0 <= i < |posts| && posts[i] == ChainInfo
      ensures TipAt(env, i, tip)
    {
      assert longer[i] == posts[i];
    }
  }

  lemma TxsGrows(env: Env, c: Core, address: string)
    ensures c.posts <= DoTxs(env, c, address).0.posts
  {
    var s := env.scriptOf(address);
    if s.Some? {
      AskAndScanGrows(env, c, {s.value});
      var (c1, r) := AskAndScan(env, c, {s.value});
      if r.Success? {
        var rows := Lookup(r.value, s.value);
        HistoryOnlyTalks(env, c1, rows, Fundings(rows));
      }
    }
  }

  /** The wire only grows. */
  lemma {:induction false} StepGrows(env: Env, c: Core, op: Op)
    ensures c.posts <= Step(env, c, op).0.posts
  {
    match op
    case Prefetch(addresses) =>
      var scripts := ScriptsOf(env, addresses);
      if scripts.Some? { AskAndScanGrows(env, c, scripts.value); }
    case Utxos(address) =>
      var s := env.scriptOf(address);
      if s.Some? { AskAndScanGrows(env, c, {s.value}); }
    case Txs(address) => TxsGrows(env, c, address);
    case Broadcast(hex) => RpcOnlyTalks(env, c, SendRaw(hex), 0);
    case TipHeight => RpcOnlyTalks(env, c, ChainInfo, env.retries);
    case Plain(rpc) => RpcOnlyTalks(env, c, Read(rpc), env.retries);
  }

  /**
   While the tip stays put, a run posts no more walks than it has calls introducing a script plus walks that failed
   or were taken at another height; so without such walks, at most one per introducing call.
   */
  lemma {:induction false} WalksAreBounded(env: Env, ops: seq<Op>, tip: nat)
    requires TipStays(env, Run(env, ops).posts, tip)
    ensures Balanced(env, Run(env, ops), tip, Introductions(env, ops))
    ensures Count(Run(env, ops).posts, AnyWalk) <= Introductions(env, ops) + Wasted(env, Run(env, ops).posts, tip)
  {
    if ops == [] {
    } else {
      var init, last := ops[..|ops| - 1], ops[|ops| - 1];
      StepGrows(env, Run(env, init), last);
      TipStaysEarlier(env, Run(env, init).posts, Run(env, ops).posts, tip);
      WalksAreBounded(env, init, tip);
      CacheIsAlwaysAWalk(env, init);
      StepKeepsBalance(env, Run(env, init), last, tip, Introductions(env, init));
    }
  }

  /**
   Exactly when a question costs a walk: when the tip was read and the cache does not cover it at that tip. A call
   about scripts already covered at the tip costs none, whoever asked before; one after a lost walk costs another.
   */
  lemma WalkPostedExactly(env: Env, c: Core, queried: set<Script>)
    ensures var after := AskAndScan(env, c, queried).0;
            var tip := AtTheTip(env, c, queried).1;
            Count(after.posts, AnyWalk) == Count(c.posts, AnyWalk) +
              (if tip.Success? && !(c.snapshot.Some? && c.height == Some(tip.value) && queried <= c.covered) then 1 else 0)
  {
    var asked := c.(scripts := c.scripts + queried);
    TipCost(env, asked, AnyWalk);
    RpcOnlyTalks(env, asked, ChainInfo, env.retries);
    var (c1, tip) := AtTheTip(env, c, queried);
    WalkIsOnePost(env, c1);
    CountOne(c1.posts, ScanStart(c1.scripts), AnyWalk);
  }

  // ---------------------------------------------------------------- after a prefetch

  /** An operation that asks nothing, or only about these scripts. */
  predicate AsksWithin(env: Env, op: Op, covered: set<Script>) {
    Scans(op) ==> var queried := ScriptsOf(env, AddressesOf(op)); queried.Some? && queried.value <= covered
  }

  /** Same cache, and no walk was posted. */
  predicate ServedLocally(before: Core, after: Core) {
    && (after.snapshot, after.covered, after.height) == (before.snapshot, before.covered, before.height)
    && before.posts <= after.posts
    && Count(after.posts, AnyWalk) == Count(before.posts, AnyWalk)
  }

  lemma AskIsLocal(env: Env, c: Core, queried: set<Script>, tip: nat)
    requires c.snapshot.Some? && c.height == Some(tip) && queried <= c.covered
    requires TipStays(env, AskAndScan(env, c, queried).0.posts, tip)
    ensures ServedLocally(c, AskAndScan(env, c, queried).0)
  {
    OnlyTheTipIsRead(env, c, queried, tip);
    TipReads(env, c.(scripts := c.scripts + queried));
    TipCost(env, c.(scripts := c.scripts + queried), AnyWalk);
    var (c1, read) := AtTheTip(env, c, queried);
    if read.Success? {
      assert Served(c1, tip, queried);
    }
  }

  lemma TxsIsLocal(env: Env, c: Core, address: string, tip: nat)
    requires c.snapshot.Some? && c.height == Some(tip) && AsksWithin(env, Txs(address), c.covered)
    ensures var after := DoTxs(env, c, address).0;
            TipStays(env, after.posts, tip) ==> ServedLocally(c, after)
  {
    OneAddress(env, address);
    var s := env.scriptOf(address).value;
    var (c1, r) := AskAndScan(env, c, {s});
    if TipStays(env, DoTxs(env, c, address).0.posts, tip) {
      if r.Success? {
        var rows := Lookup(r.value, s);
        HistoryOnlyTalks(env, c1, rows, Fundings(rows));
        AskAndScanCost(env, c, {s}, AnyWalk);
        FundingsAreDistinct(rows);
        HistoryCost(env, c1, rows, Fundings(rows), AnyWalk);
        TipStaysEarlier(env, c1.posts, History(env, c1, rows, Fundings(rows)).0.posts, tip);
      }
      AskIsLocal(env, c, {s}, tip);
    }
  }

  lemma RpcIsLocal(env: Env, c: Core, p: Post, budget: nat)
    requires !p.ScanStart?
    ensures ServedLocally(c, Rpc(env, c, p, budget).0)
  {
    RpcOnlyTalks(env, c, p, budget);
    RpcCost(env, c, p, budget, AnyWalk);
  }

  lemma StepIsLocal(env: Env, c: Core, op: Op, tip: nat)
    requires c.snapshot.Some? && c.height == Some(tip) && AsksWithin(env, op, c.covered)
    requires TipStays(env, Step(env, c, op).0.posts, tip)
    ensures ServedLocally(c, Step(env, c, op).0)
  {
    match op
    case Prefetch(addresses) =>
      var scripts := ScriptsOf(env, addresses);
      if scripts.value != {} { AskIsLocal(env, c, scripts.value, tip); }
    case Utxos(address) =>
      OneAddress(env, address);
      AskIsLocal(env, c, {env.scriptOf(address).value}, tip);
    case Txs(address) => TxsIsLocal(env, c, address, tip);
    case Broadcast(hex) => RpcIsLocal(env, c, SendRaw(hex), 0);
    case TipHeight => RpcIsLocal(env, c, ChainInfo, env.retries);
    case Plain(rpc) => RpcIsLocal(env, c, Read(rpc), env.retries);
  }

  lemma {:induction false} CoveredRunIsLocal(env: Env, c: Core, ops: seq<Op>, tip: nat)
    requires c.snapshot.Some? && c.height == Some(tip)
    requires forall i :: 0 <= i < |ops| ==> AsksWithin(env, ops[i], c.covered)
    requires TipStays(env, RunFrom(env, c, ops).posts, tip)
    ensures ServedLocally(c, RunFrom(env, c, ops))
    decreases |ops|
  {
    if ops == [] {
    } else {
      var init, last := ops[..|ops| - 1], ops[|ops| - 1];
      var c1 := RunFrom(env, c, init);
      StepGrows(env, c1, last);
      TipStaysEarlier(env, c1.posts, RunFrom(env, c, ops).posts, tip);
      CoveredRunIsLocal(env, c, init, tip);
      StepIsLocal(env, c1, last, tip);
    }
  }

  lemma PrefetchAsks(env: Env, c: Core, window: seq<string>)
    requires window != [] && ScriptsOf(env, window).Some?
    ensures Step(env, c, Prefetch(window)).0 == AskAndScan(env, c, ScriptsOf(env, window).value).0
    ensures Step(env, c, Prefetch(window)).1.Success? <==> AskAndScan(env, c, ScriptsOf(env, window).value).1.Success?
  {
    assert env.scriptOf(window[0]).value in ScriptsOf(env, window).value;
  }

  lemma PrefetchCovers(env: Env, c: Core, window: seq<string>)
    requires CacheIsAWalk(env, c) && window != []
    ensures var (after, r) := Step(env, c, Prefetch(window));
            r.Success? ==>
              ScriptsOf(env, window).Some? && after.snapshot.Some? && ScriptsOf(env, window).value <= after.covered
  {
    if ScriptsOf(env, window).Some? {
      PrefetchAsks(env, c, window);
      FailedScanKeepsCache(env, c, ScriptsOf(env, window).value);
    }
  }

  /** Operations that ask nothing outside the window. */
  predicate AllWithin(env: Env, ops: seq<Op>, window: seq<string>) {
    ScriptsOf(env, window).Some? && forall i :: 0 <= i < |ops| ==> AsksWithin(env, ops[i], ScriptsOf(env, window).value)
  }

  /**
   Once a prefetch of a window has succeeded and its walk was taken at the tip, any run that asks nothing outside the
   window, whatever it reads or broadcasts in between, posts no walk while the tip stays put.
   */
  lemma {:induction false} AfterPrefetchNoWalks(env: Env, c: Core, window: seq<string>, ops: seq<Op>, tip: nat)
    requires CacheIsAWalk(env, c) && window != []
    ensures var (prefetched, r) := Step(env, c, Prefetch(window));
            var after := RunFrom(env, prefetched, ops);
            (r.Success? && prefetched.height == Some(tip) &&
             AllWithin(env, ops, window) && TipStays(env, after.posts, tip)) ==>
              ServedLocally(prefetched, after)
  {
    var (prefetched, r) := Step(env, c, Prefetch(window));
    if r.Success? && prefetched.height == Some(tip) && AllWithin(env, ops, window) &&
       TipStays(env, RunFrom(env, prefetched, ops).posts, tip)
    {
      PrefetchCovers(env, c, window);
      CoveredRunIsLocal(env, prefetched, ops, tip);
    }
  }

  // ---------------------------------------------------------------- a failed walk is repeated

  /** A node on mainnet at height 7 whose every reply reads well, but which drops the line during walks. */
  function DroppingNode(i: nat): Reply {
    if i == 3 || i == 5 then NetworkError else Http(200, 0, Some(JObj(map["result" := NodeInfo()])))
  }

  function NodeInfo(): Json {
    JObj(map["chain" := JStr("main"), "version" := JInt(220000), "blocks" := JInt(7)])
  }

  function DroppingEnv(): Env {
    Env(DroppingNode, 0, (a: string) => Some(a), (h: string) => None, (ch: char) => false, (t: string) => None,
        (hex: string) => None)
  }

  /** What a run against that node rests on. */
  ghost predicate Drops(env: Env, s: Script) {
    && env.retries == 0 && env.scriptOf(s) == Some(s)
    && forall i: nat :: Classify(env.node(i)) == if i == 3 || i == 5 then Retry(None) else Answered(NodeInfo())
  }

  lemma DroppingEnvDrops(s: Script)
    ensures Drops(DroppingEnv(), s)
  {
    var body := JObj(map["result" := NodeInfo()]);
    assert Get(body, "error") == JNull;
  }

  lemma NodeInfoReads()
    ensures Get(NodeInfo(), "chain") == JStr("main") && Get(NodeInfo(), "version") == JInt(220000)
    ensures TipOf(NodeInfo()) == Some(7)
  {
  }

  /** A first probe passes the gate, reads the tip and loses its walk. */
  lemma FirstProbe(env: Env, s: Script)
    requires Drops(env, s)
    ensures Step(env, Init(), Utxos(s)).0 ==
            Core(true, {s}, None, {}, None, [ChainInfo, NetworkInfo, ChainInfo, ScanStart({s})])
  {
    NodeInfoReads();
    assert {} + {s} == {s};
    assert Copies(ChainInfo, 1) == [ChainInfo] && Copies(NetworkInfo, 1) == [NetworkInfo];
    assert Copies(ScanStart({s}), 1) == [ScanStart({s})];
    var asked := Init().(scripts := {s});
    var (c1, refused) := EnsureGate(env, asked);
    assert c1 == Core(true, {s}, None, {}, None, [ChainInfo, NetworkInfo]);
    var (c2, tip) := Tip(env, asked);
    assert c2 == Core(true, {s}, None, {}, None, [ChainInfo, NetworkInfo, ChainInfo]);
  }

  /** A second probe of the same address reads the tip and loses another. */
  lemma SecondProbe(env: Env, s: Script, c: Core)
    requires Drops(env, s) && c == Core(true, {s}, None, {}, None, [ChainInfo, NetworkInfo, ChainInfo, ScanStart({s})])
    ensures Step(env, c, Utxos(s)).0.posts == c.posts + [ChainInfo] + [ScanStart({s})]
  {
    NodeInfoReads();
    assert {s} + {s} == {s};
    assert c.(scripts := {s}) == c;
    assert Copies(ChainInfo, 1) == [ChainInfo] && Copies(ScanStart({s}), 1) == [ScanStart({s})];
    var (c2, tip) := Tip(env, c);
    assert c2 == c.(posts := c.posts + [ChainInfo]);
  }

  lemma ProbeWalks(s: Script)
    ensures Count([ChainInfo, NetworkInfo, ChainInfo, ScanStart({s})], AnyWalk) == 1
    ensures Count([ChainInfo, NetworkInfo, ChainInfo, ScanStart({s})] + [ChainInfo] + [ScanStart({s})], AnyWalk) == 2
  {
    CountOne([], ChainInfo, AnyWalk);
    CountOne([ChainInfo], NetworkInfo, AnyWalk);
    CountOne([ChainInfo, NetworkInfo], ChainInfo, AnyWalk);
    CountOne([ChainInfo, NetworkInfo, ChainInfo], ScanStart({s}), AnyWalk);
    var first := [ChainInfo, NetworkInfo, ChainInfo, ScanStart({s})];
    assert [] + [ChainInfo] == [ChainInfo] && [ChainInfo] + [NetworkInfo] == [ChainInfo, NetworkInfo];
    assert [ChainInfo, NetworkInfo] + [ChainInfo] == [ChainInfo, NetworkInfo, ChainInfo];
    assert [ChainInfo, NetworkInfo, ChainInfo] + [ScanStart({s})] == first;
    CountOne(first, ChainInfo, AnyWalk);
    CountOne(first + [ChainInfo], ScanStart({s}), AnyWalk);
  }

  lemma TwoSteps(env: Env, a: Op, b: Op)
    ensures Run(env, []) == Init()
    ensures Run(env, [a]) == Step(env, Init(), a).0
    ensures Run(env, [a, b]) == Step(env, Run(env, [a]), b).0
    ensures Introductions(env, [a, b]) ==
            (if Introduces(env, Init(), a) then 1 else 0) + (if Introduces(env, Run(env, [a]), b) then 1 else 0)
  {
    assert [a][..0] == [] && [a, b][..1] == [a];
    assert RunFrom(env, Init(), []) == Init();
    assert Introductions(env, []) == 0;
  }

  /** One walk per introducing call is too little to promise: asking again after a lost walk walks again. */
  lemma {:induction false} LostWalkIsRepeated(s: Script)
    ensures var env, ops := DroppingEnv(), [Utxos(s), Utxos(s)];
            var posts := Run(env, ops).posts;
            TipStays(env, posts, 7) && Count(posts, AnyWalk) == 2 && Introductions(env, ops) == 1
  {
    var env := DroppingEnv();
    DroppingEnvDrops(s);
    NodeInfoReads();
    TwoSteps(env, Utxos(s), Utxos(s));
    FirstProbe(env, s);
    SecondProbe(env, s, Run(env, [Utxos(s)]));
    ProbeWalks(s);
    OneAddress(env, s);
  }

  // ---------------------------------------------------------------- the client

  lemma {:induction false} UnreadableRowSpoilsTheWalk(env: Env, entries: seq<Json>, k: nat)
    requires k < |entries| && ParseRow(env, entries[k]).None?
    ensures ParseRows(env, entries).None?
    decreases |entries|
  {
    if k < |entries| - 1 {
      UnreadableRowSpoilsTheWalk(env, entries[..|entries| - 1], k);
    }
  }

  lemma RowJoinsItsBucket(rows: seq<(Script, Row)>, row: (Script, Row), asked: set<Script>)
    ensures var b := Bucketed(rows, asked);
            Bucketed(rows + [row], asked) == if row.0 in asked then b[row.0 := Lookup(b, row.0) + [row.1]] else b
  {
    var longer := rows + [row];
    assert longer[..|longer| - 1] == rows;
    assert forall s :: RowsOf(longer, s) == RowsOf(rows, s) + (if row.0 == s then [row.1] else []);
    var b := Bucketed(rows, asked);
    var expected := if row.0 in asked then b[row.0 := Lookup(b, row.0) + [row.1]] else b;
    forall s
      ensures s in Bucketed(longer, asked) <==> s in expected
      ensures s in expected ==> Bucketed(longer, asked)[s] == expected[s]
    {
      if row.0 != s {
        assert RowsOf(longer, s) == RowsOf(rows, s);
      }
    }
  }

  class BitcoindClient {
    const env: Env
    var gated: bool
    var scripts: set<Script>
    var snapshot: Option<Buckets>
    var snapshotScripts: set<Script>
    var snapshotHeight: Option<nat>
    /** Every HTTP post made, in order. */
    var posts: seq<Post>

    function State(): Core
      reads this
    {
      Core(gated, scripts, snapshot, snapshotScripts, snapshotHeight, posts)
    }

    constructor (env: Env)
      ensures this.env == env && State() == Init()
    {
      this.env := env;
      gated, scripts, snapshot, snapshotScripts, snapshotHeight, posts := false, {}, None, {}, None, [];
    }

    method RequestOnce(p: Post) returns (a: Attempt)
      modifies this`posts
      ensures a == Classify(env.node(old(|posts|))) && posts == old(posts) + [p]
    {
      a := Classify(env.node(|posts|));
      posts := posts + [p];
    }

    method SendRequest(p: Post, budget: nat) returns (r: Result<Json, Refusal>)
      modifies this`posts
      ensures (State(), r) == Request(env, old(State()), p, budget)
    {
      var lastFailure := None;
      ghost var at := |posts|;
      for attempt := 0 to budget + 1
        invariant posts == old(posts) + Copies(p, attempt)
        invariant attempt <= budget ==>
                    Settled(env.node, at, budget) ==
                    (attempt + Settled(env.node, at + attempt, budget - attempt).0,
                     Settled(env.node, at + attempt, budget - attempt).1)
        invariant attempt == budget + 1 ==>
                    Settled(env.node, at, budget) == (budget + 1, Failure(Exhausted(lastFailure)))
      {
        var a := RequestOnce(p);
        assert posts == old(posts) + Copies(p, attempt + 1);
        match a {
          case Answered(v) => return Success(v);
          case Refused(e) => return Failure(e);
          case Retry(status) => lastFailure := status;
        }
      }
      return Failure(Exhausted(lastFailure));
    }

    method PassGate() returns (refused: Option<Refusal>)
      modifies this`posts, this`gated
      ensures (State(), refused) == EnsureGate(env, old(State()))
    {
      if gated {
        return None;
      }
      var info := SendRequest(ChainInfo, env.retries);
      refused := ServesMainnet(info);
      if refused.Some? {
        return;
      }
      var network := SendRequest(NetworkInfo, env.retries);
      refused := RecentEnough(network);
      if refused.None? {
        gated := true;
      }
    }

    method Call(p: Post, budget: nat) returns (r: Result<Json, Refusal>)
      modifies this`posts, this`gated
      ensures (State(), r) == Rpc(env, old(State()), p, budget)
    {
      var refused := PassGate();
      if refused.Some? {
        return Failure(refused.value);
      }
      r := SendRequest(p, budget);
    }

    method GetTipHeight() returns (r: Result<nat, Refusal>)
      modifies this`posts, this`gated
      ensures (State(), r) == Tip(env, old(State()))
    {
      var info := Call(ChainInfo, env.retries);
      if info.Failure? {
        return Failure(info.error);
      }
      var height := TipOf(info.value);
      r := if height.None? then Failure(BadShape) else Success(height.value);
    }

    /** The walk's rows in buckets, or nothing as soon as one cannot be read. */
    method ReadRows(entries: seq<Json>) returns (buckets: Option<Buckets>)
      ensures ParseRows(env, entries).None? ==> buckets.None?
      ensures ParseRows(env, entries).Some? ==> buckets == Some(Bucketed(ParseRows(env, entries).value, scripts))
    {
      var filled: Buckets := map[];
      ghost var rows: seq<(Script, Row)> := [];
      for k := 0 to |entries|
        invariant ParseRows(env, entries[..k]) == Some(rows) && filled == Bucketed(rows, scripts)
      {
        var parsed := ParseRow(env, entries[k]);
        if parsed.None? {
          UnreadableRowSpoilsTheWalk(env, entries, k);
          return None;
        }
        var (script, row) := parsed.value;
        RowJoinsItsBucket(rows, parsed.value, scripts);
        if script in scripts {
          filled := filled[script := (if script in filled then filled[script] else []) + [row]];
        }
        rows := rows + [parsed.value];
        assert entries[..k + 1][..k] == entries[..k];
      }
      assert entries[..|entries|] == entries;
      return Some(filled);
    }

    /** One walk over every script asked so far; the cache is replaced only when all of it could be read. */
    method StartWalk() returns (r: Result<Buckets, Refusal>)
      modifies this
      ensures (State(), r) == WalkNow(env, old(State()))
    {
      var result := SendRequest(ScanStart(scripts), 0);
      if result.Failure? {
        return Failure(result.error);
      }
      var refused := WalkRefusal(result.value);
      if refused.Some? {
        return Failure(refused.value);
      }
      var buckets := ReadRows(Get(result.value, "unspents").items);
      if buckets.None? {
        return Failure(BadShape);
      }
      snapshot, snapshotScripts, snapshotHeight := buckets, scripts, Some(Get(result.value, "height").n);
      r := Success(buckets.value);
    }

    method ScanSnapshot(queried: set<Script>) returns (r: Result<Buckets, Refusal>)
      modifies this
      ensures (State(), r) == Scan(env, old(State()), queried)
    {
      var tip := GetTipHeight();
      if tip.Failure? {
        return Failure(tip.error);
      }
      if snapshot.Some? && snapshotHeight == Some(tip.value) && queried <= snapshotScripts {
        return Success(snapshot.value);
      }
      r := StartWalk();
    }

    method PrefetchScan(addresses: seq<string>) returns (r: Result<Answer, Refusal>)
      modifies this
      ensures (State(), r) == Step(env, old(State()), Prefetch(addresses))
    {
      var queried := ScriptsOf(env, addresses);
      if queried.None? {
        return Failure(BadAddress);
      }
      if queried.value == {} {
        return Success(Nothing);
      }
      scripts := scripts + queried.value;
      var answer := ScanSnapshot(queried.value);
      r := if answer.Failure? then Failure(answer.error) else Success(Nothing);
    }

    method GetAddressUtxos(address: string) returns (r: Result<Answer, Refusal>)
      modifies this
      ensures (State(), r) == Step(env, old(State()), Utxos(address))
    {
      var s := env.scriptOf(address);
      if s.None? {
        return Failure(BadAddress);
      }
      scripts := scripts + {s.value};
      var answer := ScanSnapshot({s.value});
      r := if answer.Failure? then Failure(answer.error) else Success(Unspent(Lookup(answer.value, s.value)));
    }

    method GetAddressTxs(address: string) returns (r: Result<Answer, Refusal>)
      modifies this
      ensures (State(), r) == Step(env, old(State()), Txs(address))
    {
      var s := env.scriptOf(address);
      if s.None? {
        return Failure(BadAddress);
      }
      scripts := scripts + {s.value};
      var answer := ScanSnapshot({s.value});
      if answer.Failure? {
        return Failure(answer.error);
      }
      var rows := Lookup(answer.value, s.value);
      var heights := ProvenHeights(rows);
      var txids := DistinctTxids(rows);
      var entries := ReadHistory(rows, heights, txids);
      r := if entries.Failure? then Failure(entries.error) else Success(Entries(entries.value));
    }

    /** The entry of one transaction, read and bound to the one asked for. */
    method ReadEntry(txid: string, proven: Option<nat>) returns (r: Result<TxEntry, Refusal>)
      modifies this`posts, this`gated
      ensures var (after, verbose) := Rpc(env, old(State()), RawTransaction(txid), env.retries);
              && State() == after
              && r == if verbose.Failure? then Failure(verbose.error)
                      else if ToEntry(env, verbose.value, txid, proven).None? then Failure(BadShape)
                      else Success(ToEntry(env, verbose.value, txid, proven).value)
    {
      var verbose := Call(RawTransaction(txid), env.retries);
      if verbose.Failure? {
        return Failure(verbose.error);
      }
      var entry := ToEntry(env, verbose.value, txid, proven);
      r := if entry.None? then Failure(BadShape) else Success(entry.value);
    }

    method ReadHistory(rows: seq<Row>, heights: map<string, nat>, txids: seq<string>)
      returns (r: Result<seq<TxEntry>, Refusal>)
      requires forall t :: t in heights <==> ProvenHeight(rows, t).Some?
      requires forall t :: t in heights ==> Some(heights[t]) == ProvenHeight(rows, t)
      modifies this`posts, this`gated
      ensures (State(), r) == History(env, old(State()), rows, txids)
    {
      ghost var c := State();
      var entries: seq<TxEntry> := [];
      for k := 0 to |txids|
        invariant History(env, c, rows, txids[..k]) == (State(), Success(entries))
      {
        var entry := ReadEntry(txids[k], if txids[k] in heights then Some(heights[txids[k]]) else None);
        HistoryOneMore(env, c, rows, txids, k);
        if entry.Failure? {
          FailedReadEndsHistory(env, c, rows, txids, k + 1);
          return Failure(entry.error);
        }
        entries := entries + [entry.value];
      }
      assert txids[..|txids|] == txids;
      r := Success(entries);
    }

    method BroadcastTx(hex: string) returns (r: Result<Answer, Refusal>)
      modifies this
      ensures (State(), r) == Step(env, old(State()), Broadcast(hex))
      ensures r.Success? ==> env.txidOf(hex).Some? && r.value == Txid(env.txidOf(hex).value)
    {
      var expected := env.txidOf(hex);
      if expected.None? {
        return Failure(BadTransaction);
      }
      var reported := Call(SendRaw(hex), 0);
      if reported.Failure? {
        return Failure(reported.error);
      }
      if !TxidHex(reported.value) {
        return Failure(BadShape);
      }
      r := if reported.value.s != expected.value then Failure(WrongTxid) else Success(Txid(reported.value.s));
    }
  }

  lemma HistoryOneMore(env: Env, c: Core, rows: seq<Row>, txids: seq<string>, k: nat)
    requires k < |txids| && History(env, c, rows, txids[..k]).1.Success?
    ensures var (before, init) := History(env, c, rows, txids[..k]);
            var (after, verbose) := Rpc(env, before, RawTransaction(txids[k]), env.retries);
            History(env, c, rows, txids[..k + 1]) ==
              if verbose.Failure? then (after, Failure(verbose.error))
              else
                var entry := ToEntry(env, verbose.value, txids[k], ProvenHeight(rows, txids[k]));
                (after, if entry.None? then Failure(BadShape) else Success(init.value + [entry.value]))
  {
    assert txids[..k + 1][..k] == txids[..k];
  }

  lemma {:induction false} FailedReadEndsHistory(env: Env, c: Core, rows: seq<Row>, txids: seq<string>, k: nat)
    requires k <= |txids| && History(env, c, rows, txids[..k]).1.Failure?
    ensures History(env, c, rows, txids) == History(env, c, rows, txids[..k])
    decreases |txids|
  {
    if k == |txids| {
      assert txids[..k] == txids;
    } else {
      var init := txids[..|txids| - 1];
      assert init[..k] == txids[..k];
      FailedReadEndsHistory(env, c, rows, init, k);
    }
  }

  method ProvenHeights(rows: seq<Row>) returns (heights: map<string, nat>)
    ensures forall t :: t in heights <==> ProvenHeight(rows, t).Some?
    ensures forall t :: t in heights ==> Some(heights[t]) == ProvenHeight(rows, t)
  {
    heights := map[];
    for k := 0 to |rows|
      invariant forall t :: t in heights <==> ProvenHeight(rows[..k], t).Some?
      invariant forall t :: t in heights ==> Some(heights[t]) == ProvenHeight(rows[..k], t)
    {
      assert rows[..k + 1][..k] == rows[..k];
      if rows[k].height.Some? && rows[k].txid !in heights {
        heights := heights[rows[k].txid := rows[k].height.value];
      }
    }
    assert rows[..|rows|] == rows;
  }

  method DistinctTxids(rows: seq<Row>) returns (txids: seq<string>)
    ensures txids == Fundings(rows)
  {
    txids := [];
    for k := 0 to |rows|
      invariant txids == Fundings(rows[..k])
    {
      assert rows[..k + 1][..k] == rows[..k];
      if rows[k].txid !in txids {
        txids := txids + [rows[k].txid];
      }
    }
    assert rows[..|rows|] == rows;
  }
}
