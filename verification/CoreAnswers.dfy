/**
 What the Bitcoin Core adapter takes for an answer, said over the JSON that the node sent: each reading of the
 adapter (src/localwallet/chain/bitcoind.py) accepts a document exactly when it means what is read from it.
 */
module CoreAnswers {
  import opened Basics
  import opened JsonValues
  import opened CoreClient

  // ---------------------------------------------------------------- replies

  /** A reply that carries a result: a 2xx envelope of an accepted size, with a result member and no error. */
  predicate Carries(reply: Reply) {
    && reply.Http? && reply.size <= 67108864 && 200 <= reply.status <= 299
    && reply.body.Some? && reply.body.value.JObj?
    && "result" in reply.body.value.members
    && ("error" in reply.body.value.members ==> reply.body.value.members["error"] == JNull)
  }

  function Carried(reply: Reply): Json
    requires Carries(reply)
  {
    reply.body.value.members["result"]
  }

  lemma AnsweredExactly(reply: Reply, result: Json)
    ensures Classify(reply) == Answered(result) <==> Carries(reply) && Carried(reply) == result
    ensures Classify(reply).Answered? <==> Carries(reply)
  {
  }

  /** The body is an object whose error member counts as an error, with this numeric code in it, if any. */
  predicate NamesError(body: Option<Json>, code: Option<int>) {
    && body.Some? && body.value.JObj? && "error" in body.value.members
    && var error := body.value.members["error"];
       if error.JObj? && "code" in error.members && error.members["code"].JInt? then code == Some(error.members["code"].n)
       else code == None
  }

  /**
   Why a reply is refused for good. The size is looked at first, then the credentials; the node's own rejection, with
   its numeric code, comes before the status.
   */
  lemma RefusedExactly(reply: Reply, code: Option<int>)
    ensures Classify(reply) == Refused(Oversized) <==> reply.Http? && reply.size > 67108864
    ensures Classify(reply) == Refused(AuthRefused) <==>
              reply.Http? && reply.size <= 67108864 && reply.status in {401, 403}
    ensures Classify(reply) == Refused(Rejected(code)) <==>
              && reply.Http? && reply.size <= 67108864 && reply.status !in {401, 403} && NamesError(reply.body, code)
              && (if 200 <= reply.status <= 299 then
                    "result" in reply.body.value.members && reply.body.value.members["error"] != JNull
                  else Truthy(reply.body.value.members["error"]))
  {
  }

  // ---------------------------------------------------------------- numbers and rows

  /** The document means the whole number: plainly, as a decimal, or as text. */
  predicate Means(env: Env, j: Json, n: int) {
    match j
    case JInt(i) => i == n
    case JReal(d) => d == n as real
    case JStr(s) => env.decimalOf(s) == Some(n as real)
    case _ => false
  }

  /** The height an entry names: the member `blockheight`, or `height` where that one means no whole number. */
  ghost predicate NamesHeight(env: Env, entry: Json, h: int) {
    Means(env, Get(entry, "blockheight"), h) ||
    (Means(env, Get(entry, "height"), h) && forall n :: !Means(env, Get(entry, "blockheight"), n))
  }

  lemma WholeNumberIs(env: Env, j: Json, n: int)
    ensures WholeNumberOf(env, j) == Some(n) <==> Means(env, j, n)
  {
    assert (n as real).Floor == n;
  }

  lemma HeightReadExactly(env: Env, entry: Json, h: int)
    ensures LenientHeight(env, entry) == Some(h) <==> NamesHeight(env, entry, h)
  {
    var first := Get(entry, "blockheight");
    WholeNumberIs(env, first, h);
    WholeNumberIs(env, Get(entry, "height"), h);
    if WholeNumberOf(env, first).Some? {
      WholeNumberIs(env, first, WholeNumberOf(env, first).value);
    } else {
      forall n
        ensures !Means(env, first, n)
      {
        WholeNumberIs(env, first, n);
      }
    }
  }

  /** The height of a confirmed row; an unconfirmed one names no positive height. */
  ghost predicate RowHeightIs(env: Env, entry: Json, h: Option<nat>) {
    if h.Some? then h.value > 0 && NamesHeight(env, entry, h.value)
    else forall n :: n > 0 ==> !NamesHeight(env, entry, n)
  }

  lemma RowHeightReadExactly(env: Env, entry: Json, h: Option<nat>)
    ensures RowHeight(env, entry) == h <==> RowHeightIs(env, entry, h)
  {
    forall n
      ensures LenientHeight(env, entry) == Some(n) <==> NamesHeight(env, entry, n)
    {
      HeightReadExactly(env, entry, n);
    }
  }

  /** The entry is this coin of this script. */
  ghost predicate RowIs(env: Env, entry: Json, script: Script, row: Row) {
    && Get(entry, "txid") == JStr(row.txid) && TxidHex(Get(entry, "txid"))
    && Get(entry, "vout") == JInt(row.vout)
    && Get(entry, "scriptPubKey") == JStr(script)
    && script != "" && !env.isSpace(script[0]) && !env.isSpace(script[|script| - 1])
    && IsAmount(Get(entry, "amount"), row.value)
    && RowHeightIs(env, entry, row.height)
  }

  lemma RowReadExactly(env: Env, entry: Json, script: Script, row: Row)
    ensures ParseRow(env, entry) == Some((script, row)) <==> RowIs(env, entry, script, row)
  {
    AmountsConvert(Get(entry, "amount"), row.value);
    RowHeightReadExactly(env, entry, row.height);
  }

  ghost predicate RowsAre(env: Env, entries: seq<Json>, rows: seq<(Script, Row)>) {
    |rows| == |entries| && forall i :: 0 <= i < |rows| ==> RowIs(env, entries[i], rows[i].0, rows[i].1)
  }

  lemma {:induction false} RowsReadExactly(env: Env, entries: seq<Json>, rows: seq<(Script, Row)>)
    ensures ParseRows(env, entries) == Some(rows) <==> RowsAre(env, entries, rows)
  {
    if entries == [] {
    } else if rows == [] {
      assert !RowsAre(env, entries, rows);
    } else {
      var init, last := entries[..|entries| - 1], entries[|entries| - 1];
      var initRows, lastRow := rows[..|rows| - 1], rows[|rows| - 1];
      RowsReadExactly(env, init, initRows);
      RowReadExactly(env, last, lastRow.0, lastRow.1);
      assert rows == initRows + [lastRow];
      if |rows| == |entries| {
        assert RowsAre(env, entries, rows) <==>
               RowsAre(env, init, initRows) && RowIs(env, last, lastRow.0, lastRow.1);
      }
    }
  }

  // ---------------------------------------------------------------- walks

  /**
   The result of a finished walk: the node says so twice over, names the height, and lists the coins it found, every
   one of them readable.
   */
  ghost predicate Finished(env: Env, result: Json, w: Walk) {
    && result.JObj?
    && "success" in result.members && result.members["success"] == JBool(true)
    && ("complete" in result.members ==> result.members["complete"] == JBool(true))
    && "height" in result.members && result.members["height"] == JInt(w.height)
    && "unspents" in result.members && result.members["unspents"].JArr?
    && (forall i :: 0 <= i < |result.members["unspents"].items| ==> result.members["unspents"].items[i].JObj?)
    && RowsAre(env, result.members["unspents"].items, w.rows)
  }

  lemma WalkReadExactly(env: Env, result: Json, w: Walk)
    ensures ParseWalk(env, result) == Success(w) <==> Finished(env, result, w)
  {
    if WalkRefusal(result).None? {
      RowsReadExactly(env, Get(result, "unspents").items, w.rows);
    }
  }

  /** The reply reports this walk. */
  ghost predicate Reports(env: Env, reply: Reply, w: Walk) {
    Carries(reply) && Finished(env, Carried(reply), w)
  }

  /** The walk's request is not repeated: the reply decides what the cache becomes. */
  lemma WalkAnswersExactly(env: Env, c: Core)
    ensures var (after, r) := WalkNow(env, c);
            var reply := env.node(|c.posts|);
            && (r.Success? <==> exists w :: Reports(env, reply, w))
            && forall w :: Reports(env, reply, w) ==>
                 after.snapshot == Some(Bucketed(w.rows, c.scripts)) && after.height == Some(w.height)
  {
    var (c1, result) := Request(env, c, ScanStart(c.scripts), 0);
    var reply := env.node(|c.posts|);
    FirstVerdictDecides(env.node, |c.posts|, 0);
    if Carries(reply) {
      AnsweredExactly(reply, Carried(reply));
      forall w
        ensures ParseWalk(env, Carried(reply)) == Success(w) <==> Reports(env, reply, w)
      {
        WalkReadExactly(env, Carried(reply), w);
      }
      if WalkNow(env, c).1.Success? {
        assert Reports(env, reply, ParseWalk(env, Carried(reply)).value);
      }
    } else if result.Success? {
      AnsweredExactly(reply, result.value);
    }
  }

  // ---------------------------------------------------------------- the tip and the gate

  /** The reply names the height of the node's own chain so far, not the number of headers it knows. */
  predicate ShowsTip(reply: Reply, tip: nat) {
    Carries(reply) && Get(Carried(reply), "blocks") == JInt(tip)
  }

  /** The last post of a client that passed the gate asked for the tip and was shown it. */
  predicate TipShown(env: Env, c: Core, tip: nat) {
    && c.gated && c.posts != [] && c.posts[|c.posts| - 1] == ChainInfo
    && ShowsTip(env.node(|c.posts| - 1), tip)
  }

  lemma RequestAnswersExactly(env: Env, c: Core, p: Post, budget: nat)
    ensures var (after, r) := Request(env, c, p, budget);
            var last := |after.posts| - 1;
            && |c.posts| <= last && after.posts[last] == p
            && (r.Success? <==> Carries(env.node(last)))
            && (r.Success? ==> r.value == Carried(env.node(last)))
  {
    FirstVerdictDecides(env.node, |c.posts|, budget);
    var after := Request(env, c, p, budget).0;
    var reply := env.node(|after.posts| - 1);
    if Carries(reply) {
      AnsweredExactly(reply, Carried(reply));
    } else if Classify(reply).Answered? {
      AnsweredExactly(reply, Classify(reply).result);
    }
  }

  /** A read succeeds exactly when the gate is passed and its last post is answered; that answer is what it reads. */
  lemma RpcAnswersExactly(env: Env, c: Core, p: Post, budget: nat)
    ensures var (after, r) := Rpc(env, c, p, budget);
            && (after.gated ==> |after.posts| > |c.posts| && after.posts[|after.posts| - 1] == p)
            && (r.Success? <==> after.gated && Carries(env.node(|after.posts| - 1)))
            && (r.Success? ==> r.value == Carried(env.node(|after.posts| - 1)))
  {
    var (c1, refused) := EnsureGate(env, c);
    if refused.None? {
      RequestAnswersExactly(env, c1, p, budget);
    }
    RpcOnlyTalks(env, c, p, budget);
  }

  predicate NamesMainnet(reply: Reply) {
    Carries(reply) && Get(Carried(reply), "chain") == JStr("main")
  }

  predicate NamesRecent(reply: Reply) {
    Carries(reply) && Get(Carried(reply), "version").JInt? && Get(Carried(reply), "version").n >= 220000
  }

  /**
   A closed gate opens exactly when its two questions are answered well: the last post asked for the version and the
   answer is recent enough, and before it the chain was asked for and named mainnet. It never stops at a good answer.
   */
  lemma GateOpensExactly(env: Env, c: Core)
    requires !c.gated
    ensures var (after, refused) := EnsureGate(env, c);
            var last := |after.posts| - 1;
            && (refused.None? <==> after.gated)
            && |c.posts| <= last
            && (after.gated <==> after.posts[last] == NetworkInfo && NamesRecent(env.node(last)))
            && (after.posts[last] == NetworkInfo ==>
                  exists k :: |c.posts| <= k < last && after.posts[k] == ChainInfo && NamesMainnet(env.node(k)))
            && (after.posts[last] != NetworkInfo ==> after.posts[last] == ChainInfo && !NamesMainnet(env.node(last)))
  {
    RequestAnswersExactly(env, c, ChainInfo, env.retries);
    var (c1, info) := Request(env, c, ChainInfo, env.retries);
    if ServesMainnet(info).None? {
      RequestAnswersExactly(env, c1, NetworkInfo, env.retries);
      var c2 := Request(env, c1, NetworkInfo, env.retries).0;
      assert c2.posts[|c1.posts| - 1] == c1.posts[|c1.posts| - 1] == ChainInfo;
      assert NamesMainnet(env.node(|c1.posts| - 1));
    }
  }

  lemma TipReadExactly(env: Env, c: Core, tip: nat)
    ensures var (after, r) := Tip(env, c);
            && (r == Success(tip) <==> TipShown(env, after, tip))
            && OnlyTalked(c, after)
  {
    RpcAnswersExactly(env, c, ChainInfo, env.retries);
    RpcOnlyTalks(env, c, ChainInfo, env.retries);
  }

  // ---------------------------------------------------------------- scans

  /**
   The question about these scripts stands answered after the scan: by the walk just posted, reported as finished, or
   without one, by a cache taken at the tip just shown that covers them.
   */
  ghost predicate ScanAnswered(env: Env, c: Core, queried: set<Script>, after: Core) {
    && after.gated && after.posts != []
    && var last := |after.posts| - 1;
       if after.posts[last].ScanStart? then exists w :: Reports(env, env.node(last), w)
       else c.snapshot.Some? && c.height.Some? && queried <= c.covered && TipShown(env, after, c.height.value)
  }

  lemma ScanBranches(env: Env, c: Core, queried: set<Script>)
    ensures var (c1, tip) := Tip(env, c);
            Scan(env, c, queried) ==
            if tip.Failure? then (c1, Failure(tip.error))
            else if Served(c1, tip.value, queried) then (c1, Success(c1.snapshot.value))
            else WalkNow(env, c1)
  {
  }

  lemma WalkedScanSucceedsExactly(env: Env, c: Core, c1: Core, queried: set<Script>)
    requires OnlyTalked(c, c1) && c1.gated
    ensures var (after, r) := WalkNow(env, c1);
            && (r.Success? <==> ScanAnswered(env, c, queried, after))
            && (r.Success? ==> after.snapshot == Some(r.value))
            && (r.Failure? ==> SameCache(after, c))
  {
    WalkAnswersExactly(env, c1);
    WalkIsOnePost(env, c1);
    WalkReplacesOrKeeps(env, c1);
  }

  /** A scan succeeds exactly so; its answer is the cache, moved by a finished walk and by nothing else. */
  lemma ScanSucceedsExactly(env: Env, c: Core, queried: set<Script>)
    ensures var (after, r) := AskAndScan(env, c, queried);
            && (r.Success? <==> ScanAnswered(env, c, queried, after))
            && (r.Success? ==> after.snapshot == Some(r.value))
            && (r.Failure? ==> SameCache(after, c))
  {
    var asked := c.(scripts := c.scripts + queried);
    var (c1, tip) := Tip(env, asked);
    ScanBranches(env, asked, queried);
    if tip.Failure? {
      NoTipShown(env, asked);
    } else {
      TipReadExactly(env, asked, tip.value);
      if !Served(c1, tip.value, queried) {
        WalkedScanSucceedsExactly(env, asked, c1, queried);
        SameQuestion(env, c, asked, queried, WalkNow(env, c1).0);
      }
    }
  }

  lemma SameQuestion(env: Env, c: Core, asked: Core, queried: set<Script>, after: Core)
    requires SameCache(c, asked)
    ensures ScanAnswered(env, c, queried, after) <==> ScanAnswered(env, asked, queried, after)
  {
  }

  lemma NoTipShown(env: Env, c: Core)
    requires Tip(env, c).1.Failure?
    ensures var after := Tip(env, c).0;
            && OnlyTalked(c, after)
            && (after.gated ==> after.posts != [] && after.posts[|after.posts| - 1] == ChainInfo)
            && forall tip: nat :: !TipShown(env, after, tip)
  {
    RpcAnswersExactly(env, c, ChainInfo, env.retries);
    forall tip: nat
      ensures OnlyTalked(c, Tip(env, c).0) && !TipShown(env, Tip(env, c).0, tip)
    {
      TipReadExactly(env, c, tip);
    }
  }

  /** What a finished walk's result cannot be, said of its members one by one. */
  predicate Unfinished(result: Json) {
    || Get(result, "success") != JBool(true)
    || (result.JObj? && "complete" in result.members && result.members["complete"] != JBool(true))
    || !Get(result, "height").JInt? || Get(result, "height").n < 0
    || !Get(result, "unspents").JArr?
    || exists i :: 0 <= i < |Get(result, "unspents").items| && !Get(result, "unspents").items[i].JObj?
  }

  lemma UnfinishedIsNoWalk(env: Env, result: Json, w: Walk)
    ensures Unfinished(result) ==> !Finished(env, result, w)
  {
  }

  /** An aborted or malformed walk never becomes a balance: the question fails and the cache stays. */
  lemma UnfinishedWalkIsRefused(env: Env, c: Core, address: string)
    requires env.scriptOf(address).Some?
    ensures var (after, r) := Step(env, c, Utxos(address));
            var last := |after.posts| - 1;
            && after.posts != []
            && (after.posts[last].ScanStart? && Carries(env.node(last)) && Unfinished(Carried(env.node(last))) ==>
                  r.Failure? && SameCache(after, c))
  {
    var queried := {env.scriptOf(address).value};
    ScanPosts(env, c, queried);
    UtxosSucceedExactly(env, c, address);
    var reply := env.node(|Step(env, c, Utxos(address)).0.posts| - 1);
    if Carries(reply) && Unfinished(Carried(reply)) {
      forall w
        ensures !Reports(env, reply, w)
      {
        UnfinishedIsNoWalk(env, Carried(reply), w);
      }
    }
  }

  lemma ScanPosts(env: Env, c: Core, queried: set<Script>)
    ensures |AskAndScan(env, c, queried).0.posts| > |c.posts|
  {
    var asked := c.(scripts := c.scripts + queried);
    var c1 := Tip(env, asked).0;
    TipPosts(env, asked);
    WalkIsOnePost(env, c1);
  }

  lemma TipPosts(env: Env, c: Core)
    ensures |Tip(env, c).0.posts| > |c.posts|
  {
    RpcAnswersExactly(env, c, ChainInfo, env.retries);
    if !c.gated {
      GateOpensExactly(env, c);
    }
  }

  /** The operation over one address succeeds exactly when the address is one and its scan is answered. */
  lemma UtxosSucceedExactly(env: Env, c: Core, address: string)
    ensures var s := env.scriptOf(address);
            var (after, r) := Step(env, c, Utxos(address));
            && (s.None? ==> r == Failure(BadAddress) && after == c)
            && (s.Some? ==>
                  && after.scripts == c.scripts + {s.value}
                  && (r.Success? <==> ScanAnswered(env, c, {s.value}, after))
                  && (r.Success? ==> after.snapshot.Some? && r.value == Unspent(Lookup(after.snapshot.value, s.value)))
                  && (r.Failure? ==> SameCache(after, c)))
  {
    if env.scriptOf(address).Some? {
      ScanSucceedsExactly(env, c, {env.scriptOf(address).value});
      ScriptsAreRemembered(env, c, {env.scriptOf(address).value});
    }
  }

  lemma ScriptsAreRemembered(env: Env, c: Core, queried: set<Script>)
    ensures AskAndScan(env, c, queried).0.scripts == c.scripts + queried
  {
    var asked := c.(scripts := c.scripts + queried);
    RpcOnlyTalks(env, asked, ChainInfo, env.retries);
    WalkReplacesOrKeeps(env, Tip(env, asked).0);
  }

  lemma PrefetchSucceedsExactly(env: Env, c: Core, addresses: seq<string>)
    ensures var (after, r) := Step(env, c, Prefetch(addresses));
            && ((exists i :: 0 <= i < |addresses| && env.scriptOf(addresses[i]).None?) ==>
                  r == Failure(BadAddress) && after == c)
            && (addresses == [] ==> r == Success(Nothing) && after == c)
            && (addresses != [] && (forall i :: 0 <= i < |addresses| ==> env.scriptOf(addresses[i]).Some?) ==>
                  var queried := set i | 0 <= i < |addresses| :: env.scriptOf(addresses[i]).value;
                  && after.scripts == c.scripts + queried
                  && (r.Success? <==> ScanAnswered(env, c, queried, after))
                  && (r.Failure? ==> SameCache(after, c)))
  {
    var scripts := ScriptsOf(env, addresses);
    if addresses != [] && scripts.Some? {
      var queried := set i | 0 <= i < |addresses| :: env.scriptOf(addresses[i]).value;
      forall s
        ensures s in scripts.value <==> s in queried
      {
      }
      assert scripts.value == queried;
      assert env.scriptOf(addresses[0]).value in queried;
      ScanSucceedsExactly(env, c, queried);
      ScriptsAreRemembered(env, c, queried);
    }
  }

  /** `at` lists, in order, the positions of the script's rows, and `picked` is what stands there. */
  ghost predicate PicksOut(rows: seq<(Script, Row)>, s: Script, at: seq<nat>, picked: seq<Row>) {
    && |at| == |picked|
    && (forall k :: 0 <= k < |at| ==> at[k] < |rows| && rows[at[k]] == (s, picked[k]))
    && (forall j, k :: 0 <= j < k < |at| ==> at[j] < at[k])
    && (forall i: nat :: i < |rows| && rows[i].0 == s ==> i in at)
  }

  lemma PicksOneMore(rows: seq<(Script, Row)>, row: (Script, Row), s: Script, at: seq<nat>, picked: seq<Row>)
    requires PicksOut(rows, s, at, picked)
    ensures if row.0 == s then PicksOut(rows + [row], s, at + [|rows|], picked + [row.1])
            else PicksOut(rows + [row], s, at, picked)
  {
    var longer := if row.0 == s then at + [|rows|] else at;
    forall i: nat | i < |rows + [row]| && (rows + [row])[i].0 == s
      ensures i in longer
    {
      if i == |rows| {
        assert longer[|at|] == |rows|;
      } else {
        assert rows[i].0 == s;
      }
    }
  }

  function PositionsOf(rows: seq<(Script, Row)>, s: Script): seq<nat> {
    if rows == [] then []
    else PositionsOf(rows[..|rows| - 1], s) + (if rows[|rows| - 1].0 == s then [|rows| - 1] else [])
  }

  /** The rows of one script are a subsequence of the walk's rows: all of its own, none of another's, in order. */
  lemma {:induction false} RowsAreTheScripts(rows: seq<(Script, Row)>, s: Script)
    ensures PicksOut(rows, s, PositionsOf(rows, s), RowsOf(rows, s))
  {
    if rows == [] {
    } else {
      var init, last := rows[..|rows| - 1], rows[|rows| - 1];
      RowsAreTheScripts(init, s);
      PicksOneMore(init, last, s, PositionsOf(init, s), RowsOf(init, s));
      assert init + [last] == rows;
    }
  }

  // ---------------------------------------------------------------- history

  /** Transaction `t` first occurs in row `k`. */
  predicate FirstAt(rows: seq<Row>, t: string, k: nat) {
    k < |rows| && rows[k].txid == t && forall i :: 0 <= i < k ==> rows[i].txid != t
  }

  /** The distinct ids are listed as they first occur. */
  lemma {:induction false} FundingsInFirstSeenOrder(rows: seq<Row>, i: nat, j: nat, k: nat, l: nat)
    requires i < j < |Fundings(rows)|
    requires FirstAt(rows, Fundings(rows)[i], k) && FirstAt(rows, Fundings(rows)[j], l)
    ensures k < l
  {
    var init, last := rows[..|rows| - 1], |rows| - 1;
    if j < |Fundings(init)| {
      FundingsAreTheRows(init, Fundings(init)[i]);
      FundingsAreTheRows(init, Fundings(init)[j]);
      assert forall n :: 0 <= n < last ==> init[n] == rows[n];
      assert k < last && l < last;
      FundingsInFirstSeenOrder(init, i, j, k, l);
    } else {
      FundingsAreTheRows(init, Fundings(init)[i]);
      FundingsAreTheRows(init, Fundings(rows)[j]);
      assert forall n :: 0 <= n < last ==> init[n] == rows[n];
    }
  }

  /** The address a script object shows: by name in either spelling, or else through its bytes; an empty one is none. */
  predicate ShowsAddress(env: Env, script: Json, address: Option<string>) {
    if Get(script, "address").JStr? && Get(script, "address") != JStr("") then
      address == Some(Get(script, "address").s)
    else if Get(script, "addresses").JArr? && Get(script, "addresses").items != [] &&
            Get(script, "addresses").items[0].JStr? then
      address == (if Get(script, "addresses").items[0].s == "" then None
                  else Some(Get(script, "addresses").items[0].s))
    else if Get(script, "hex").JStr? && env.addressOf(Get(script, "hex").s) != Some("") then
      address == env.addressOf(Get(script, "hex").s)
    else address == None
  }

  /** The height of a confirmed entry: the proven one, or else one that the transaction names, if it is not negative. */
  ghost predicate EntryHeightIs(env: Env, verbose: Json, proven: Option<nat>, h: Option<nat>) {
    if proven.Some? then h == proven
    else if h.Some? then NamesHeight(env, verbose, h.value)
    else forall n :: n >= 0 ==> !NamesHeight(env, verbose, n)
  }

  ghost predicate FeeIs(verbose: Json, fee: Option<nat>)
    requires verbose.JObj?
  {
    if "fee" in verbose.members then fee.Some? && IsAmount(verbose.members["fee"], fee.value) else fee == None
  }

  ghost predicate TimeIs(verbose: Json, time: Option<nat>) {
    if time.Some? then Get(verbose, "blocktime") == JInt(time.value)
    else Get(verbose, "blocktime").JInt? ==> Get(verbose, "blocktime").n < 0
  }

  ghost predicate AddressesAre(env: Env, verbose: Json, e: TxEntry) {
    var vin, vout := Get(verbose, "vin"), Get(verbose, "vout");
    && ListOfObjects(vin) && ListOfObjects(vout) && |e.inputs| == |vin.items| && |e.outputs| == |vout.items|
    && (forall i :: 0 <= i < |vin.items| ==>
          ShowsAddress(env, Get(Get(vin.items[i], "prevout"), "scriptPubKey"), e.inputs[i]))
    && (forall i :: 0 <= i < |vout.items| ==> ShowsAddress(env, Get(vout.items[i], "scriptPubKey"), e.outputs[i]))
  }

  /** The verbose transaction, asked for by this id, is this entry. */
  ghost predicate EntryIs(env: Env, verbose: Json, requested: string, proven: Option<nat>, e: TxEntry) {
    && verbose.JObj? && Get(verbose, "txid") == JStr(requested) && TxidHex(JStr(requested)) && e.txid == requested
    && Get(verbose, "confirmations").JInt? && Get(verbose, "confirmations").n >= 0
    && (e.confirmed <==> Get(verbose, "confirmations").n > 0)
    && (if e.confirmed then EntryHeightIs(env, verbose, proven, e.height) && TimeIs(verbose, e.time)
        else e.height == None && e.time == None)
    && FeeIs(verbose, e.fee)
    && AddressesAre(env, verbose, e)
  }

  lemma EntryHeightReadExactly(env: Env, verbose: Json, proven: Option<nat>, h: Option<nat>)
    ensures EntryHeightIs(env, verbose, proven, h) <==>
              h == if proven.Some? then proven else NonNegative(LenientHeight(env, verbose))
  {
    forall n
      ensures LenientHeight(env, verbose) == Some(n) <==> NamesHeight(env, verbose, n)
    {
      HeightReadExactly(env, verbose, n);
    }
  }

  lemma AddressesReadExactly(env: Env, verbose: Json, e: TxEntry)
    requires ListOfObjects(Get(verbose, "vin")) && ListOfObjects(Get(verbose, "vout"))
    ensures AddressesAre(env, verbose, e) <==>
              e.inputs == InputAddresses(env, Get(verbose, "vin").items) &&
              e.outputs == OutputAddresses(env, Get(verbose, "vout").items)
  {
    forall script, a
      ensures ShowsAddress(env, script, a) <==> a == NonEmpty(ScriptAddress(env, script))
    {
    }
    var vin, vout := Get(verbose, "vin").items, Get(verbose, "vout").items;
    if AddressesAre(env, verbose, e) {
      assert forall i :: 0 <= i < |vin| ==> e.inputs[i] == InputAddresses(env, vin)[i];
      assert forall i :: 0 <= i < |vout| ==> e.outputs[i] == OutputAddresses(env, vout)[i];
    }
    if e.inputs == InputAddresses(env, vin) && e.outputs == OutputAddresses(env, vout) {
      assert forall i :: 0 <= i < |vin| ==>
        ShowsAddress(env, Get(Get(vin[i], "prevout"), "scriptPubKey"), e.inputs[i]);
      assert forall i :: 0 <= i < |vout| ==> ShowsAddress(env, Get(vout[i], "scriptPubKey"), e.outputs[i]);
    }
  }

  lemma EntryReadExactly(env: Env, verbose: Json, requested: string, proven: Option<nat>, e: TxEntry)
    ensures ToEntry(env, verbose, requested, proven) == Some(e) <==> EntryIs(env, verbose, requested, proven, e)
  {
    EntryHeightReadExactly(env, verbose, proven, e.height);
    if verbose.JObj? && "fee" in verbose.members && e.fee.Some? {
      AmountsConvert(verbose.members["fee"], e.fee.value);
    }
    if ListOfObjects(Get(verbose, "vin")) && ListOfObjects(Get(verbose, "vout")) {
      AddressesReadExactly(env, verbose, e);
    }
  }

  /** The k-th transaction of a history was read: some post asked for it and was answered with this entry. */
  ghost predicate ReadAt(env: Env, posts: seq<Post>, txid: string, proven: Option<nat>, e: TxEntry, at: nat) {
    && at < |posts| && posts[at] == RawTransaction(txid)
    && Carries(env.node(at)) && EntryIs(env, Carried(env.node(at)), txid, proven, e)
  }

  /** The last post asked for one of the transactions and its answer is no entry of it. */
  ghost predicate Unreadable(env: Env, posts: seq<Post>, rows: seq<Row>, txids: seq<string>) {
    && posts != [] && posts[|posts| - 1].RawTransaction? && posts[|posts| - 1].txid in txids
    && var txid, reply := posts[|posts| - 1].txid, env.node(|posts| - 1);
       Carries(reply) ==> forall e :: !EntryIs(env, Carried(reply), txid, ProvenHeight(rows, txid), e)
  }

  lemma OneEntryReadExactly(env: Env, c: Core, rows: seq<Row>, txid: string)
    requires c.gated
    ensures var (after, verbose) := Rpc(env, c, RawTransaction(txid), env.retries);
            var proven := ProvenHeight(rows, txid);
            && after.gated && c.posts <= after.posts
            && (verbose.Success? && ToEntry(env, verbose.value, txid, proven).Some? ==>
                  ReadAt(env, after.posts, txid, proven, ToEntry(env, verbose.value, txid, proven).value,
                         |after.posts| - 1))
            && (verbose.Failure? || ToEntry(env, verbose.value, txid, proven).None? ==>
                  Unreadable(env, after.posts, rows, [txid]))
  {
    RpcAnswersExactly(env, c, RawTransaction(txid), env.retries);
    RpcOnlyTalks(env, c, RawTransaction(txid), env.retries);
    var (after, verbose) := Rpc(env, c, RawTransaction(txid), env.retries);
    if verbose.Success? {
      var proven := ProvenHeight(rows, txid);
      forall e
        ensures ToEntry(env, verbose.value, txid, proven) == Some(e) <==> EntryIs(env, verbose.value, txid, proven, e)
      {
        EntryReadExactly(env, verbose.value, txid, proven, e);
      }
    }
  }

  ghost predicate IsRead(env: Env, posts: seq<Post>, rows: seq<Row>, txid: string, e: TxEntry) {
    exists at: nat :: ReadAt(env, posts, txid, ProvenHeight(rows, txid), e, at)
  }

  /** Every entry stands for its transaction, as some post of the client was answered. */
  ghost predicate AllRead(env: Env, posts: seq<Post>, rows: seq<Row>, txids: seq<string>, entries: seq<TxEntry>) {
    && |entries| == |txids|
    && forall k :: 0 <= k < |txids| ==> IsRead(env, posts, rows, txids[k], entries[k])
  }

  lemma OneMoreRead(env: Env, posts: seq<Post>, longer: seq<Post>, rows: seq<Row>, txids: seq<string>, last: string,
                    entries: seq<TxEntry>, e: TxEntry)
    requires AllRead(env, posts, rows, txids, entries) && posts <= longer && longer != []
    requires ReadAt(env, longer, last, ProvenHeight(rows, last), e, |longer| - 1)
    ensures AllRead(env, longer, rows, txids + [last], entries + [e])
  {
    var all, read := txids + [last], entries + [e];
    forall k | 0 <= k < |all|
      ensures IsRead(env, longer, rows, all[k], read[k])
    {
      if k < |txids| {
        assert IsRead(env, posts, rows, txids[k], entries[k]);
        var at: nat :| ReadAt(env, posts, txids[k], ProvenHeight(rows, txids[k]), entries[k], at);
        assert longer[at] == posts[at];
        assert ReadAt(env, longer, all[k], ProvenHeight(rows, all[k]), read[k], at);
      }
    }
    assert AllRead(env, longer, rows, all, read);
  }

  /** One more transaction read after the earlier ones. */
  function NextEntry(env: Env, c: Core, rows: seq<Row>, entries: seq<TxEntry>, txid: string)
    : (Core, Result<seq<TxEntry>, Refusal>)
  {
    var (after, verbose) := Rpc(env, c, RawTransaction(txid), env.retries);
    if verbose.Failure? then (after, Failure(verbose.error))
    else
      var entry := ToEntry(env, verbose.value, txid, ProvenHeight(rows, txid));
      if entry.None? then (after, Failure(BadShape)) else (after, Success(entries + [entry.value]))
  }

  lemma NextEntryReads(env: Env, c: Core, rows: seq<Row>, txids: seq<string>, entries: seq<TxEntry>, txid: string)
    requires c.gated && AllRead(env, c.posts, rows, txids, entries)
    ensures var (after, r) := NextEntry(env, c, rows, entries, txid);
            && after.gated && c.posts <= after.posts
            && (r.Success? ==> AllRead(env, after.posts, rows, txids + [txid], r.value))
            && (r.Failure? ==> Unreadable(env, after.posts, rows, [txid]))
  {
    OneEntryReadExactly(env, c, rows, txid);
    var (after, verbose) := Rpc(env, c, RawTransaction(txid), env.retries);
    if verbose.Success? {
      var entry := ToEntry(env, verbose.value, txid, ProvenHeight(rows, txid));
      if entry.Some? {
        OneMoreRead(env, c.posts, after.posts, rows, txids, txid, entries, entry.value);
      }
    }
  }

  /** A history that succeeded was read entry by entry; one that failed stopped at an unreadable transaction. */
  ghost predicate HistoryRead(env: Env, c: Core, rows: seq<Row>, txids: seq<string>, after: Core,
                              r: Result<seq<TxEntry>, Refusal>) {
    && after.gated && c.posts <= after.posts
    && (r.Success? ==> AllRead(env, after.posts, rows, txids, r.value))
    && (r.Failure? ==> Unreadable(env, after.posts, rows, txids))
  }

  /** What a history answers once its earlier part has been read. */
  function Continued(env: Env, rows: seq<Row>, earlier: (Core, Result<seq<TxEntry>, Refusal>), txid: string)
    : (Core, Result<seq<TxEntry>, Refusal>)
  {
    if earlier.1.Failure? then earlier else NextEntry(env, earlier.0, rows, earlier.1.value, txid)
  }

  lemma HistoryStep(env: Env, c: Core, rows: seq<Row>, txids: seq<string>)
    requires txids != []
    ensures History(env, c, rows, txids) ==
            Continued(env, rows, History(env, c, rows, txids[..|txids| - 1]), txids[|txids| - 1])
  {
  }

  lemma ContinuedKeepsReading(env: Env, c: Core, rows: seq<Row>, txids: seq<string>,
                              earlier: (Core, Result<seq<TxEntry>, Refusal>), txid: string)
    requires HistoryRead(env, c, rows, txids, earlier.0, earlier.1)
    ensures var (after, r) := Continued(env, rows, earlier, txid);
            HistoryRead(env, c, rows, txids + [txid], after, r)
  {
    if earlier.1.Success? {
      NextEntryReads(env, earlier.0, rows, txids, earlier.1.value, txid);
    }
  }

  ghost predicate HistoryHolds(env: Env, c: Core, rows: seq<Row>, txids: seq<string>) {
    var (after, r) := History(env, c, rows, txids);
    HistoryRead(env, c, rows, txids, after, r)
  }

  lemma EmptyHistoryHolds(env: Env, c: Core, rows: seq<Row>)
    requires c.gated
    ensures HistoryHolds(env, c, rows, [])
  {
    assert AllRead(env, c.posts, rows, [], []);
  }

  lemma OneMoreHolds(env: Env, c: Core, rows: seq<Row>, init: seq<string>, last: string)
    requires HistoryHolds(env, c, rows, init)
    ensures HistoryHolds(env, c, rows, init + [last])
  {
    HistoryStep(env, c, rows, init + [last]);
    assert (init + [last])[..|init|] == init;
    var earlier := History(env, c, rows, init);
    assert History(env, c, rows, init + [last]) == Continued(env, rows, earlier, last);
    ContinuedKeepsReading(env, c, rows, init, earlier, last);
  }

  lemma {:induction false} HistoryReadsExactly(env: Env, c: Core, rows: seq<Row>, txids: seq<string>)
    requires c.gated
    ensures HistoryHolds(env, c, rows, txids)
  {
    if txids == [] {
      EmptyHistoryHolds(env, c, rows);
    } else {
      var init, last := txids[..|txids| - 1], txids[|txids| - 1];
      HistoryReadsExactly(env, c, rows, init);
      OneMoreHolds(env, c, rows, init, last);
      assert init + [last] == txids;
    }
  }

  /** The history of an address fails with its scan, or else is the history of the rows its scan answered. */
  lemma TxsSucceedExactly(env: Env, c: Core, address: string)
    requires env.scriptOf(address).Some?
    ensures var s := env.scriptOf(address).value;
            var c1 := AskAndScan(env, c, {s}).0;
            var (after, r) := Step(env, c, Txs(address));
            && (r.Success? ==> r.value.Entries?)
            && (!ScanAnswered(env, c, {s}, c1) ==> r.Failure? && after == c1 && SameCache(after, c))
            && (ScanAnswered(env, c, {s}, c1) ==>
                  && c1.snapshot.Some?
                  && var rows := Lookup(c1.snapshot.value, s);
                     HistoryRead(env, c1, rows, Fundings(rows), after,
                                 if r.Success? then Success(r.value.entries) else Failure(r.error)))
  {
    var s := env.scriptOf(address).value;
    ScanSucceedsExactly(env, c, {s});
    var (c1, r) := AskAndScan(env, c, {s});
    if r.Success? {
      HistoryReadsExactly(env, c1, Lookup(r.value, s), Fundings(Lookup(r.value, s)));
    }
  }

  // ---------------------------------------------------------------- sending

  /** A send succeeds exactly when its one post, after the gate, is answered with the transaction's own id. */
  lemma SendSucceedsExactly(env: Env, c: Core, hex: string)
    ensures var expected := env.txidOf(hex);
            var (after, r) := Step(env, c, Broadcast(hex));
            && (expected.None? ==> r == Failure(BadTransaction) && after == c)
            && (expected.Some? && after.gated ==> after.posts != [] && after.posts[|after.posts| - 1] == SendRaw(hex))
            && (expected.Some? ==>
                  var reply := env.node(|after.posts| - 1);
                  (r == Success(Txid(expected.value)) <==>
                     after.gated && Carries(reply) && Carried(reply) == JStr(expected.value) && TxidHex(Carried(reply)))
                  && (r.Success? ==> r == Success(Txid(expected.value))))
  {
    RpcAnswersExactly(env, c, SendRaw(hex), 0);
  }

  // ---------------------------------------------------------------- giving up

  lemma RequestGivesUpLate(env: Env, c: Core, p: Post, budget: nat)
    ensures var (after, r) := Request(env, c, p, budget);
            r.Failure? && r.error.Exhausted? ==> |after.posts| == |c.posts| + budget + 1
  {
    FirstVerdictDecides(env.node, |c.posts|, budget);
    var last := Classify(env.node(|c.posts| + Settled(env.node, |c.posts|, budget).0 - 1));
    if last.Refused? {
      var reply := env.node(|c.posts| + Settled(env.node, |c.posts|, budget).0 - 1);
      assert reply.Http?;
    }
  }

  /**
   A client past the gate gives up on a lost or busy node after the whole budget of a read and never earlier, but
   after one post of a walk or a send, which are not repeated.
   */
  lemma GivesUpExactly(env: Env, c: Core, op: Op)
    requires c.gated && !op.Txs?
    ensures var (after, r) := Step(env, c, op);
            var posts := |after.posts| - |c.posts|;
            r.Failure? && r.error.Exhausted? ==>
              && after.posts != []
              && match after.posts[|after.posts| - 1]
                 case ScanStart(_) => 2 <= posts <= env.retries + 2
                 case SendRaw(_) => posts == 1
                 case _ => posts == env.retries + 1
  {
    match op
    case Prefetch(addresses) =>
      var queried := ScriptsOf(env, addresses);
      if queried.Some? { ScanGivesUpExactly(env, c, queried.value); }
    case Utxos(address) =>
      if env.scriptOf(address).Some? { ScanGivesUpExactly(env, c, {env.scriptOf(address).value}); }
    case Txs(_) =>
    case Broadcast(hex) => RequestGivesUpLate(env, c, SendRaw(hex), 0);
    case TipHeight => RequestGivesUpLate(env, c, ChainInfo, env.retries);
    case Plain(rpc) => RequestGivesUpLate(env, c, Read(rpc), env.retries);
  }

  lemma ScanGivesUpExactly(env: Env, c: Core, queried: set<Script>)
    requires c.gated
    ensures var (after, r) := AskAndScan(env, c, queried);
            var posts := |after.posts| - |c.posts|;
            r.Failure? && r.error.Exhausted? ==>
              && after.posts != []
              && match after.posts[|after.posts| - 1]
                 case ScanStart(_) => 2 <= posts <= env.retries + 2
                 case ChainInfo => posts == env.retries + 1
                 case _ => false
  {
    var asked := c.(scripts := c.scripts + queried);
    RequestGivesUpLate(env, asked, ChainInfo, env.retries);
    RequestAnswersExactly(env, asked, ChainInfo, env.retries);
    WalkIsOnePost(env, Tip(env, asked).0);
    ScanBranches(env, asked, queried);
  }
}
