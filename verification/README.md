# Verification of the wallet's stateful adapters and bounded protocols

A Dafny model of the watch-only wallet's adapters: what they keep over every run, and what their callers may rely
on. Each module models one component of the repository; the outside world (sockets, nodes, devices, clocks, the
file system, the language model) enters as parameters or as a sequence of replies, so a theorem about a run holds for
every behaviour of it.

| module | component | what it is about |
|---|---|---|
| `CoreClient` | `chain/bitcoind.py` | retry loop, once-per-client gate, and the cache before the full UTXO walk |
| `Electrum` | `chain/electrum.py` | framing of a byte stream, answers matched to ids, handshake gate, verbose latch |
| `Runtime` | `agent/runtime.py` | threads building one model under a re-entrant lock with timeouts |
| `Fees` | `chain/fees.py` | exact rounding, the bid ladder's closed form, two caches with separate clocks |
| `FileExport`, `FileNames` | `signer/file.py` | the three-file export that may be stopped between its writes |
| `Hwi` | `signer/hwi.py` | unique device binding with handle accounting, derivation patching |
| `Watch` | `chain/watch.py` | events surfaced exactly once |
| `AgentLoop` | `agent/loop.py`, `agent/session.py`, `protocol/dispatcher.py` | bounded context over an unbounded log, request termination |
| `Price` | `chain/price.py` | the degrade ladder and the floor conversions |
| `Envelope` | `protocol/envelope.py` | validator and dump undo each other, for all fifteen intents |
| `CoreAnswers`, `ElectrumAnswers`, `FeeBids`, `RuntimeRetry`, `EnvelopeRules` | | for five of these, when each operation succeeds and with what, said over the documents and steps it met |
| `Basics`, `JsonValues` | | optional values and results; parsed JSON |

Classes carry the source's fields and loops; each method's contract ties the new state and the answer to a function
of the old state, and the lemmas are about runs of those functions.

## What was found

Six promises of the documentation do not hold of the code as stated; the model keeps the code, shows an input,
and proves when the promise holds.

- "One walk per newly asked script" (`chain/bitcoind.py:930-938`): a walk that fails is repeated by the next call
  about the same script. A call walks exactly when the cache does not cover it at the tip just read, and walks are
  bounded by introducing calls plus walks that failed or ran at another height (`WalkPostedExactly`,
  `WalksAreBounded`, `LostWalkIsRepeated`).
- "FAST >= MEDIUM >= SLOW survives" the floor (`chain/fees.py:259-264`): true of bids from projected blocks, but the
  order of the fallback payload and of the native estimates (`chain/fees.py:574-601`) is never checked. Served bids
  are ordered exactly when they came from projected blocks or each inversion of the backend's figures lies at or below
  the floor (`LadderExactly`, `ServedLadderExactly`, `FallbackLadderCanInvert`, `NativeLadderCanInvert`).
- "Always set together with `_llama`" (`agent/runtime.py:485`): not when the verdict observer raises; generation is
  then refused for the life of the process (`GrammarClassFollowsModelUnlessObserverRaised`, `ClassCanBeMissing`,
  `NoCompletionAfterObserverRaised`).
- "Only a rejection with the verbose-unsupported code means no verbose here" (`chain/electrum.py:426-434`): a
  dial whose handshake is rejected with that code closes the latch too, and exactly such a dial does. In a run none of
  whose own handshakes was answered so, the latch is closed exactly when a verbose request was refused
  (`LatchClosesExactly`, `HandshakeCanCloseTheLatch`, `ClosedLatchMeansVerboseRejected`, `LatchCanCloseRightly`).
- "A previously surfaced transaction confirmed" (`chain/watch.py:77-78`): not when the first sighting carried no
  address or amount (`ConfirmedAlone`, `ConfirmedCanComeAlone`).
- "The ceiling is the total possible supply in sats (21M BTC)" (`protocol/envelope.py:227-229`): it is ten times that,
  and a payment above the supply is valid exactly up to there (`AmountCeilingIsTenSupplies`).

The Electrum greeting rule follows the code (any unparsable lines before a connection's first answer are skipped,
`chain/electrum.py:1002-1011`), not its docstring ("the first"): `TwoGreetingsPass` is a stream that tells them apart,
`GreetingRulesAgreeExactly` says when they agree. A `load` may return before the verdict line is stored
(`LoadReturnsBeforeLine`).

## Model

| member | source | states |
|---|---|---|
| `CoreClient.UtxosRefineAFreshScan` | src/localwallet/chain/bitcoind.py:606-621 | After any run, against any node whose UTXO set is a function of height, `get_address_utxos` answers exactly the script's rows at the serving walk's height, in order |
| `CoreClient.HowScansAreServed` | src/localwallet/chain/bitcoind.py:940-971 | A successful scan came from the cache exactly when the cache covers the question at the tip just read; otherwise from one walk posted after that reading, over every script asked so far |
| `CoreClient.CacheIsAlwaysAWalk` | src/localwallet/chain/bitcoind.py:940-1045 | In every run the cache is one of the posted walks, whole, and snapshot keys are covered, covered scripts were asked |
| `CoreClient.FailedScanKeepsCache` | src/localwallet/chain/bitcoind.py:940-1045 | A scan failing at any check leaves snapshot, cover set and height unchanged and still remembers the scripts; a success covers the question |
| `CoreClient.HistoryListsFundingsOnce` | src/localwallet/chain/bitcoind.py:623-665 | After any run, `get_address_txs` lists exactly the transactions funding the script at the walk's height, each once, in first-seen order, bound to the id asked for and the height its rows prove |
| `CoreClient.FundingsAreTheRows` | src/localwallet/chain/bitcoind.py:655 | The distinct ids are exactly the ids of the rows |
| `CoreClient.HeightIsTheFirstProven` | src/localwallet/chain/bitcoind.py:650-654 | A transaction's height is that of its first row that proves one, and absent only when none does |
| `CoreClient.WalksAreBounded` | src/localwallet/chain/bitcoind.py:667-700 | At a constant tip, walks never exceed the calls introducing a script plus the walks that failed or were taken at another height; a stronger balance is kept by every call |
| `CoreClient.WalkPostedExactly` | src/localwallet/chain/bitcoind.py:940-971 | A question posts a walk exactly when the tip was read and the cache does not cover the question at that tip |
| `CoreClient.LostWalkIsRepeated` | src/localwallet/chain/bitcoind.py:965-971 | A concrete run at a constant tip with one introducing call and two walks: the bound needs its second term |
| `CoreClient.AfterPrefetchNoWalks` | src/localwallet/chain/bitcoind.py:667-700 | After a successful prefetch whose walk was taken at the tip, any run that asks nothing outside the window, whatever it reads or broadcasts in between, posts no walk and leaves the cache alone while the tip stays |
| `CoreClient.EveryPostIsGated` | src/localwallet/chain/bitcoind.py:1128-1151 | In every run each post other than the two gate questions is preceded by an answer naming mainnet and then one naming a version of at least 220000 |
| `CoreClient.PostsPerCall` | src/localwallet/chain/bitcoind.py:1153-1205 | Per call: at most one walk, at most one send and only of the caller's own bytes, at most retries + 1 of any other read, and gate questions only while not passed |
| `CoreClient.FirstVerdictDecides` | src/localwallet/chain/bitcoind.py:1181-1205 | A request makes the least number of attempts: all but the last were retryable, the last decides, and exhaustion means the whole budget was spent |
| `CoreClient.RetriedExactlyWhenNoVerdict` | src/localwallet/chain/bitcoind.py:1235-1299 | Exactly which replies are retried: a lost connection, or a bare 429 or 5xx of an accepted size; an answer is never read from an envelope carrying an error |
| `CoreClient.BitcoindClient.SendRequest` | src/localwallet/chain/bitcoind.py:1159-1205 | The retry loop posts and answers as the settled request says |
| `CoreClient.BitcoindClient.PassGate` | src/localwallet/chain/bitcoind.py:1128-1151 | The gate asks chain then version once and sets its flag only after both pass |
| `CoreClient.BitcoindClient.ReadRows` | src/localwallet/chain/bitcoind.py:1001-1037 | The row loop fills exactly the buckets of asked scripts, or nothing when one row is unreadable |
| `CoreClient.BitcoindClient.ScanSnapshot` | src/localwallet/chain/bitcoind.py:923-1045 | Whole new state and answer of one scan |
| `CoreClient.BitcoindClient.PrefetchScan` | src/localwallet/chain/bitcoind.py:667-700 | Whole new state and answer; a malformed address or an empty window changes nothing |
| `CoreClient.BitcoindClient.GetAddressUtxos` | src/localwallet/chain/bitcoind.py:606-621 | Whole new state and answer |
| `CoreClient.BitcoindClient.GetAddressTxs` | src/localwallet/chain/bitcoind.py:623-665 | Whole new state and answer, through the height and id loops |
| `CoreClient.BitcoindClient.BroadcastTx` | src/localwallet/chain/bitcoind.py:750-781 | Whole new state and answer; a success is the transaction's own id |
| `CoreClient.ProvenHeights` | src/localwallet/chain/bitcoind.py:650-654 | The `setdefault` loop computes the first proven height of every transaction |
| `CoreClient.DistinctTxids` | src/localwallet/chain/bitcoind.py:655 | The de-duplication keeps first-seen order |
| `CoreClient.ToSats` | src/localwallet/chain/bitcoind.py:327-353 | A converted amount is exactly that many satoshis |
| `CoreClient.AmountsConvert` | src/localwallet/chain/bitcoind.py:327-353 | Every amount that is a whole number of satoshis converts, and to that number alone |
| `CoreClient.ToEntry` | src/localwallet/chain/bitcoind.py:1047-1126 | A verbose answer is bound to the transaction asked for; a row-proven height wins; unconfirmed entries carry neither height nor time; inputs and outputs carry their mapped addresses |
| `CoreClient.BitcoindClient.StartWalk` | src/localwallet/chain/bitcoind.py:955-1045 | Whole new state and answer of one walk; the cache moves only when all of it could be read |
| `CoreClient.ReportReadsBack` | src/localwallet/chain/bitcoind.py:972-1037 | A completed walk as the node writes it is read as exactly its coins and height, field by field |
| `CoreClient.ScriptReadsBack` | src/localwallet/chain/bitcoind.py:356-380 | A script object as the node writes it gives its own address back |
| `CoreClient.EntryReadsBack` | src/localwallet/chain/bitcoind.py:1047-1126 | A verbose transaction as the node writes it is read as exactly what was reported, addresses of inputs and outputs included, at the height its row proved |
| `CoreAnswers.AnsweredExactly` | src/localwallet/chain/bitcoind.py:1235-1299 | A reply is an answer if and only if it is a 2xx envelope of an accepted size with a result and no error; what it carries is the answer |
| `CoreAnswers.RefusedExactly` | src/localwallet/chain/bitcoind.py:1235-1299 | When a reply is refused as oversized, for its credentials, or as rejected by the node with its numeric code |
| `CoreAnswers.HeightReadExactly` | src/localwallet/chain/bitcoind.py:298-324 | The lenient height is the whole number that `blockheight` means, or that `height` means where the other means none |
| `CoreAnswers.RowReadExactly` | src/localwallet/chain/bitcoind.py:1001-1029 | A scan row is read as a coin if and only if its members are that coin: id, index, trimmed script, exact amount, and a positive height exactly when it names one |
| `CoreAnswers.WalkReadExactly` | src/localwallet/chain/bitcoind.py:973-1037 | A result is read as a walk if and only if it says success, does not say incomplete, names the height, and lists exactly those coins |
| `CoreAnswers.WalkAnswersExactly` | src/localwallet/chain/bitcoind.py:961-1045 | A walk succeeds if and only if its one reply reports one, and the cache becomes exactly the walk reported |
| `CoreAnswers.RowsAreTheScripts` | src/localwallet/chain/bitcoind.py:1030-1037 | The rows of a script are a subsequence of the walk: all of its own, none of another, in order |
| `CoreAnswers.RpcAnswersExactly` | src/localwallet/chain/bitcoind.py:1153-1205 | A read succeeds if and only if the gate is passed and its last post is answered, with that answer |
| `CoreAnswers.GateOpensExactly` | src/localwallet/chain/bitcoind.py:1128-1151 | A closed gate opens if and only if its chain and then its version question are answered well, and it never stops at a good answer |
| `CoreAnswers.TipReadExactly` | src/localwallet/chain/bitcoind.py:702-715 | The tip is read if and only if the last post was answered with that number of blocks, headers notwithstanding |
| `CoreAnswers.ScanSucceedsExactly` | src/localwallet/chain/bitcoind.py:923-1045 | A scan succeeds if and only if the tip was shown and a cache taken at it covers the question, or its walk is reported finished; a failed one keeps the cache |
| `CoreAnswers.UnfinishedWalkIsRefused` | src/localwallet/chain/bitcoind.py:973-1000 | A walk not reported successful, complete, with a height and a list of objects fails the question and leaves the cache as it was |
| `CoreAnswers.UtxosSucceedExactly` | src/localwallet/chain/bitcoind.py:606-621 | The coins of an address are answered if and only if it is an address and its scan is answered |
| `CoreAnswers.PrefetchSucceedsExactly` | src/localwallet/chain/bitcoind.py:667-700 | A prefetch over a window succeeds if and only if all of it are addresses and one scan of their scripts is answered; an empty one does nothing |
| `CoreAnswers.FundingsInFirstSeenOrder` | src/localwallet/chain/bitcoind.py:655 | The distinct ids are listed as they first occur |
| `CoreAnswers.EntryReadExactly` | src/localwallet/chain/bitcoind.py:1047-1126 | A verbose transaction is read as an entry if and only if its members are that entry: id, confirmations, height, time, fee and every address |
| `CoreAnswers.HistoryReadsExactly` | src/localwallet/chain/bitcoind.py:655-665 | A history lists, id by id, what posts for that id were answered with; a failed one stopped at a post whose answer is no entry |
| `CoreAnswers.TxsSucceedExactly` | src/localwallet/chain/bitcoind.py:623-665 | The history of an address fails with its scan, or is the history of the rows its scan answered |
| `CoreAnswers.SendSucceedsExactly` | src/localwallet/chain/bitcoind.py:750-781 | A broadcast succeeds if and only if its one post, after the gate, is answered with the transaction's own id |
| `CoreAnswers.GivesUpExactly` | src/localwallet/chain/bitcoind.py:1181-1205 | A lost or busy node is given up on after the whole budget of a read and not earlier, and after one post of a walk or a send |
| `Electrum.FramingConserves` | src/localwallet/chain/electrum.py:1038-1056 | Lines with their newlines followed by the buffer are the bytes received |
| `Electrum.FramingIsUnique` | src/localwallet/chain/electrum.py:1038-1056 | The split into lines is the only one: what was sent as lines is read back as those lines |
| `Electrum.ChunkingIsInvisible` | src/localwallet/chain/electrum.py:1038-1056 | Runs of the client depend on each connection's bytes alone; that the reading loop itself, chunk by chunk, yields these bytes' lines is the contract of `ReadLine` |
| `Electrum.ElectrumClient.ReadLine` | src/localwallet/chain/electrum.py:1038-1056 | The next line of the byte stream, conserving delivered plus buffered bytes at every chunk |
| `Electrum.FirstLineWithTheId` | src/localwallet/chain/electrum.py:992-1036 | The answer is the first line carrying the id, all before it skipped; unparsable lines are skipped until the connection has answered and end the stream afterwards |
| `Electrum.GreetingRulesAgreeExactly` | src/localwallet/chain/electrum.py:992-1036 | The code's reader and the documented one, which lets one unparsable line of a connection pass, answer alike exactly while at most one has come before the connection's first answer; after it, unless the connection's first one comes alone |
| `Electrum.TwoGreetingsPass` | src/localwallet/chain/electrum.py:992-1036 | A concrete stream with two unparsable lines before the first answer, which the code reads through and the documented reader gives up |
| `Electrum.OneIdPerMessage` | src/localwallet/chain/electrum.py:1014 | A message carries at most one id, as the parser's numbers compare |
| `Electrum.MessagesReadBack` | src/localwallet/chain/electrum.py:1014-1033 | A server's answer and its rejection are matched by their own id alone and read as what was meant |
| `Electrum.ResultIsThisRequests` | src/localwallet/chain/electrum.py:981-1036 | A returned result comes from the first line with this request's id, and that line carries no id of any earlier request on any connection |
| `Electrum.EveryRunIsGated` | src/localwallet/chain/electrum.py:889-968 | In every run: between calls a live socket has proven mainnet and answered, the retained relay fee is its own announcement, every caller's request went over a connection proven before it, and ids are 1, 2, 3, ... across reconnects |
| `Electrum.RequestsPerCall` | src/localwallet/chain/electrum.py:848-887 | Per call at most budget + 1 requests of its own, one for a broadcast, none verbose once latched; the latch only closes |
| `Electrum.RpcCost` | src/localwallet/chain/electrum.py:848-887 | A call makes at most budget + 1 attempts, counted in requests and in dials |
| `Electrum.BroadcastsAreCounted` | src/localwallet/chain/electrum.py:502-545 | Over a whole run a transaction is sent at most as often as the caller asked |
| `Electrum.LatchClosesExactly` | src/localwallet/chain/electrum.py:421-439 | The verbose latch closes exactly on the -32603 rejection, and does so without a rejected verbose request if and only if some dial of the call is answered with that code |
| `Electrum.RejectionIsTheHandshakes` | src/localwallet/chain/electrum.py:848-933 | A dial answered with a code ends the call with it, and a call ending so was rejected by a handshake if and only if some dial of it was |
| `Electrum.DroppedOverTheHandshake` | src/localwallet/chain/electrum.py:927-933 | A call ends rejected and disconnected if and only if a dial of it is rejected |
| `Electrum.ClosedLatchMeansVerboseRejected` | src/localwallet/chain/electrum.py:415-439 | In every run, against any servers: a verbose request refused for being verbose has closed the latch; a closed latch goes back to such a refusal or to a handshake of the run answered with that code; so without such a handshake the latch is closed exactly when a verbose request was refused |
| `Electrum.LatchCanCloseRightly` | src/localwallet/chain/electrum.py:415-439 | A concrete run whose handshakes were answered otherwise ends with a verbose request refused and the latch closed |
| `Electrum.HandshakeCanCloseTheLatch` | src/localwallet/chain/electrum.py:889-968 | A concrete server whose handshake rejection closes the latch although no verbose request was sent |
| `Electrum.RejectionNamesItsExchange` | src/localwallet/chain/electrum.py:1014-1036 | A rejection is the answer to the last exchange: the request, or a handshake whose connection is then gone |
| `Electrum.ElectrumClient.AwaitAnswer` | src/localwallet/chain/electrum.py:992-1036 | The matching loop refines the answer function |
| `Electrum.ElectrumClient.RawRequest` | src/localwallet/chain/electrum.py:970-1036 | One exchange: id taken, answer or loss recorded, connection dropped on a garbled stream |
| `Electrum.ElectrumClient.Dial` | src/localwallet/chain/electrum.py:889-933 | Connect and handshake; a refused handshake leaves no connection |
| `Electrum.ElectrumClient.ShakeHands` | src/localwallet/chain/electrum.py:945-968 | Version then genesis hash, each refusal as the source orders them, then the announced relay fee |
| `Electrum.ElectrumClient.DropConnection` | src/localwallet/chain/electrum.py:935-943 | Socket and buffer are forgotten, nothing else |
| `Electrum.ElectrumClient.CallRpc` | src/localwallet/chain/electrum.py:848-887 | The retry loop refines the recursive call |
| `Electrum.ElectrumClient.BroadcastTx` | src/localwallet/chain/electrum.py:502-545 | Whole new state and answer; a success is the transaction's own id |
| `Electrum.ElectrumClient.FetchTransaction` | src/localwallet/chain/electrum.py:415-439 | Verbose first, the latch, then the serialized form; the status read at 580-593 has the same shape |
| `ElectrumAnswers.CarriesExactly` | src/localwallet/chain/electrum.py:1014 | A message has the id of a request if and only if its id member is that number, plain, decimal, or a truth value for one and zero |
| `ElectrumAnswers.OutcomeReadExactly` | src/localwallet/chain/electrum.py:1014-1032 | A message is a result if and only if its error member is empty in one of seven ways, and else an error with its numeric code |
| `ElectrumAnswers.RawAnswersExactly` | src/localwallet/chain/electrum.py:983-1036 | A request is lost if and only if it cannot be sent or no line ends the wait; the stream is garbled if and only if an unparsable line comes first on an answered connection; otherwise the first line with the id is its outcome |
| `ElectrumAnswers.HandshakeSucceedsExactly` | src/localwallet/chain/electrum.py:945-968 | A handshake succeeds if and only if it logged a version answered with a string or a list and then features naming mainnet; a refused one names the exchange that stopped it, and the relay fee is the announced one |
| `ElectrumAnswers.DialSucceedsExactly` | src/localwallet/chain/electrum.py:889-968 | A dial succeeds if and only if the connection opens and its two exchanges are so answered; a refused one leaves no socket |
| `ElectrumAnswers.DialHearsItsOwnStream` | src/localwallet/chain/electrum.py:919-920 | The first exchange of a dial reads the whole stream of its connection, greeting lines passing whatever earlier connections had answered |
| `ElectrumAnswers.ListedVersionIsServed` | src/localwallet/chain/electrum.py:954-957 | A concrete run over a server that answers the version request with a list ends in a served request |
| `ElectrumAnswers.RpcAnswersExactly` | src/localwallet/chain/electrum.py:848-887 | A call succeeds if and only if its last exchange is its own request, answered with a result, and that is its answer |
| `ElectrumAnswers.RetriesExactly` | src/localwallet/chain/electrum.py:859-887 | Only lost attempts are repeated, and a call is given up as lost after the whole budget and not earlier |
| `ElectrumAnswers.CallSucceedsExactly` | src/localwallet/chain/electrum.py:848-887 | A plain call answers exactly the result of its last exchange |
| `ElectrumAnswers.SendSucceedsExactly` | src/localwallet/chain/electrum.py:502-545 | A broadcast makes one attempt and succeeds if and only if it is answered with the transaction's own id |
| `ElectrumAnswers.FetchSucceedsExactly` | src/localwallet/chain/electrum.py:415-439 | A fetch succeeds if and only if its last exchange is the request the latch calls for, verbose while open and serialized once closed, answered with a result |
| `Fees.TargetFollowerClosedForm` | src/localwallet/chain/fees.py:603-664 | Final bids are max(2m, F), max(m, F) and F with m the rounded markup and F the policy floor; ordered; flags exact; the rounding dip never shows |
| `Fees.RoundingDipOnlyWhenTiny` | src/localwallet/chain/fees.py:637-641 | The lift after rounding can fire only below 10/3 centisat/vB, and then the lifted rate stays under the assumed floor |
| `Fees.AverageWithinWindow` | src/localwallet/chain/fees.py:643-644 | The displayed average lies between the rounded extremes of its window |
| `Fees.ParseProjectedBottoms` | src/localwallet/chain/fees.py:833-854 | The one-pass validator accepts exactly the non-empty, all-usable, non-increasing payloads |
| `Fees.Bottoms` | src/localwallet/chain/fees.py:833-854 | The accepted bottoms are the entries' own, plausible as a whole |
| `Fees.FallbackLadderOrder` | src/localwallet/chain/fees.py:857-890 | The fallback's ladder is ordered if and only if each inversion of the payload lies at or below the floor |
| `Fees.FallbackLadderCanInvert` | src/localwallet/chain/fees.py:857-890 | A concrete backend from which a refresh serves and stores a FAST bid below MEDIUM |
| `Fees.NativeLadderCanInvert` | src/localwallet/chain/fees.py:574-601 | A concrete backend without the fee endpoints from whose estimates a refresh stores a FAST bid below MEDIUM |
| `Fees.LadderExactly` | src/localwallet/chain/fees.py:531-601 | Whatever a refresh derives its bids from, they are ordered FAST, MEDIUM, SLOW if and only if they came from projected blocks or each inversion of the backend's own three figures lies at or below the final floor |
| `Fees.CachedLadderExactly` | src/localwallet/chain/fees.py:531-601 | In every run the cached bids go back to one refresh of the run, and are ordered if and only if that refresh's condition holds |
| `Fees.ServedLadderExactly` | src/localwallet/chain/fees.py:531-601 | The same of the bids any call of any run is served |
| `Fees.Round` | src/localwallet/chain/fees.py:793-801 | Ceiling and half-even rounding stay within one unit and half a unit of the exact value, ties going to the even |
| `Fees.RoundMonotone` | src/localwallet/chain/fees.py:793-801 | Rounding keeps order |
| `Fees.BackendFloor` | src/localwallet/chain/fees.py:282-306 | The node's floor or the assumed one, whichever is higher; anything unusable falls back to the assumed one |
| `Fees.StoredBids` | src/localwallet/chain/fees.py:549-572 | What a refresh stores is stamped now, at or over the relay floor, and a ladder when read from projected blocks |
| `Fees.NativeBids` | src/localwallet/chain/fees.py:574-601 | Without the fee endpoints each bid is its own target's estimate or the relay floor where that is higher, and the three are ordered if and only if each inversion of the estimates lies at or below that floor |
| `Fees.ServedBidsAreFresh` | src/localwallet/chain/fees.py:529-572 | In every run with a clock that never goes back, served bids are younger than ttl and embed a floor resolved less than 2 ttl before, even across re-pointing; a failed refresh changes nothing |
| `Fees.FloorQueriedOncePerLifetime` | src/localwallet/chain/fees.py:514-527 | Two floor queries with no reset between them are at least ttl apart, in every run |
| `Fees.RunKeepsInvariant` | src/localwallet/chain/fees.py:505-572 | The two-cache invariant holds after every run |
| `Fees.FeeEstimator.GetSnapshot` | src/localwallet/chain/fees.py:529-572 | Whole new state and answer of a refresh |
| `Fees.FeeEstimator.RelayFloorCentisat` | src/localwallet/chain/fees.py:514-527 | Whole new state and answer of a floor read |
| `Fees.FeeEstimator.ClampToMinRelayFloor` | src/localwallet/chain/fees.py:682-722 | The larger of rate and floor, the raised flag exact, the snapshot untouched |
| `Fees.FeeEstimator.SetRelayFloorClient` | src/localwallet/chain/fees.py:505-512 | Re-pointing drops the floor cache only |
| `Fees.FeeEstimator.Invalidate` | src/localwallet/chain/fees.py:786-790 | Both caches are dropped |
| `Fees.FormatReadsBack` | src/localwallet/chain/fees.py:350-373 | The displayed rate reads back as the same rate, so no two rates look alike |
| `Fees.FormatIsShort` | src/localwallet/chain/fees.py:350-375 | A whole rate is shown without a point, any other without a zero at its end |
| `FeeBids.FloorResolvedExactly` | src/localwallet/chain/fees.py:514-527 | A young cached floor is given again; otherwise the wired wallet is asked, or without one the fee source, and its figure counts when above the assumed floor |
| `FeeBids.RepointedFloorIsAsked` | src/localwallet/chain/fees.py:505-527 | After re-pointing, the next clamp asks exactly the source then wired |
| `FeeBids.ProjectsExactly` | src/localwallet/chain/fees.py:833-854 | Projected blocks are bid from if and only if each names a plausible bottom and none is above a nearer one |
| `FeeBids.CanBidExactly` | src/localwallet/chain/fees.py:857-890 | A refresh has something to bid from if and only if the five congestion figures, or the three native estimates, are whole numbers above zero |
| `FeeBids.RefreshServesExactly` | src/localwallet/chain/fees.py:529-664 | One call in full: the young cache; or failure with nothing changed exactly when there is too little to bid from; or the bids, flags, average and floor of these very answers over the relay floor resolved in this call, in each of the three shapes |
| `FeeBids.ServedBidsAreARefreshs` | src/localwallet/chain/fees.py:529-664 | In every run whatever is served are the bids of one refresh of that run, with those values |
| `Runtime.ModelBuiltOnce` | src/localwallet/agent/runtime.py:390-478 | Over every schedule of any threads the model is assigned at most once and never changes, and the observer is called at most once |
| `Runtime.EveryCallerGetsTheSameModel` | src/localwallet/agent/runtime.py:407-478 | Every successful load or completion used the one kept instance |
| `Runtime.EvaluationIsExclusive` | src/localwallet/agent/runtime.py:368-388 | Two evaluations never overlap, none overlaps a build, and each decodes under the grammar its caller asked for |
| `Runtime.LockFullyReleased` | src/localwallet/agent/runtime.py:365-388 | Outside a call a thread holds nothing, on every exit including timeouts and failures |
| `Runtime.VerdictIsHonest` | src/localwallet/agent/runtime.py:441-474 | The verdict says GPU exactly when the kept instance has layers offloaded; what was announced is that verdict |
| `Runtime.GpuOffloadDecision` | src/localwallet/agent/runtime.py:175-199 | The policy offloads exactly with a backend and no override 0, its line says GPU exactly then, names that backend, and gives the override's layer count or all |
| `Runtime.LineMissingExactlyWhileStoring` | src/localwallet/agent/runtime.py:407-474 | A model is visible without its verdict line exactly while its builder is about to store the line |
| `Runtime.LineCanBeMissing` | src/localwallet/agent/runtime.py:407-474 | Such a moment is reachable |
| `Runtime.LoadReturnsBeforeLine` | src/localwallet/agent/runtime.py:407-410 | At each such moment a `load` returns at once without the line |
| `Runtime.GrammarClassFollowsModelUnlessObserverRaised` | src/localwallet/agent/runtime.py:472-487 | With the lock free, the grammar class is set with the model exactly when the observer never raised |
| `Runtime.ClassCanBeMissing` | src/localwallet/agent/runtime.py:472-478 | A concrete schedule ends with the lock free and a model kept, but without the grammar class: the observer raised |
| `Runtime.NoCompletionAfterObserverRaised` | src/localwallet/agent/runtime.py:480-489 | Once the observer has raised, no thread ever completes a generation |
| `Runtime.NoDeadlock` | src/localwallet/agent/runtime.py:365-412 | While a thread is inside a call some thread can move |
| `RuntimeRetry.GpuFailureIsRetriedOnCpu` | src/localwallet/agent/runtime.py:450-478 | Over every schedule, a failed GPU construction of a call was followed by exactly one on the CPU and nothing else was retried; a working one is the kept model, after a retry with no GPU layers and the line naming the failure; a load raises after a working one only if the observer did; a completion used its own grammar |
| `RuntimeRetry.LoneLoadExactly` | src/localwallet/agent/runtime.py:412-478 | A load that is alone ends as its constructions do: served under the decided line, served from the CPU under the fallback line, or raised with no model |
| `RuntimeRetry.LoneGenerateCompletes` | src/localwallet/agent/runtime.py:348-388 | A generation that is alone with a built model completes on it under its own grammar, compiling only a new text |
| `RuntimeRetry.WaitingEndsExactly` | src/localwallet/agent/runtime.py:371-415 | A free or own lock is taken once more; one held by another past the bound makes the call raise with nothing changed; otherwise nothing moves |
| `Runtime.RunKeepsInvariant` | src/localwallet/agent/runtime.py:348-489 | The lock invariant holds after every schedule, the model is kept, verdicts only grow |
| `FileExport.RunsStayDerived` | src/localwallet/signer/file.py:244-331 | Over every sequence of attempts on any references, each stopped anywhere within its writes, a reference's three files are absent or are the first content's text with each other file absent or derived from it |
| `FileExport.RerunCompletes` | src/localwallet/signer/file.py:290-331 | From any reachable folder an uninterrupted valid export succeeds if and only if no signed file arrived and no different content came first; success completes all three files, refusal leaves the folder unchanged |
| `FileExport.LetThroughExactly` | src/localwallet/signer/file.py:290-322 | The overwrite policy over a derived folder, as an if and only if |
| `FileExport.OthersUntouched` | src/localwallet/signer/file.py:324-328 | Only the reference's three files and the call's own temporary files are ever touched, and a refusal before writing touches nothing |
| `FileNames.NamesNeverCollide` | src/localwallet/signer/file.py:286-291 | No two files of any references share a name unless they are the same file of the same reference |
| `FileExport.SanitizedRefIsSafe` | src/localwallet/signer/file.py:115-129 | One to eight letters and digits, stable under sanitizing again |
| `FileExport.ReadBounded` | src/localwallet/signer/file.py:180-201 | The whole file exactly when it fits, and never more than one byte over the limit in memory |
| `FileExport.WrittenTextReadsBack` | src/localwallet/signer/file.py:306-318 | The written text passes its own size, decoding and comparison checks |
| `FileExport.StripUndoesNewline` | src/localwallet/signer/file.py:298-309 | Stripping the written line gives the content back |
| `FileExport.StripTakesWhitespace` | src/localwallet/signer/file.py:280 | Stripping takes whitespace off both ends, and all of it |
| `FileExport.SanitizedRefIs` | src/localwallet/signer/file.py:115-129 | The reference is its own first eight characters when it is letters and digits, else the start of its digest |
| `FileExport.ValidatedExactly` | src/localwallet/signer/file.py:132-153 | A text is let through if and only if, stripped, it is bounded Base64 of a document with the magic that parses; and why it is not |
| `FileExport.NoObstacleExactly` | src/localwallet/signer/file.py:286-322 | Over any folder: nothing is in the way if and only if no signed file waits and the two existing files can be read, are bounded and say the same |
| `FileExport.ExportSucceedsExactly` | src/localwallet/signer/file.py:244-331 | An export succeeds if and only if it is valid, nothing is in its way and every write completes; then exactly the three files have changed |
| `FileExport.FilePsbtSigner.ExportUnsigned` | src/localwallet/signer/file.py:244-331 | Whole new folder and answer of one attempt |
| `FileExport.FilePsbtSigner.CheckExisting` | src/localwallet/signer/file.py:289-322 | The checks refuse in the source's order |
| `FileExport.WriteIsAtomic` | src/localwallet/signer/file.py:156-173 | However far a write gets, its target is untouched or whole and nothing else changes but one new temporary file holding a beginning of the data; a write that goes on changed exactly its target |
| `FileNames.TempNeverOurs` | src/localwallet/signer/file.py:164 | No temporary file has the name of an exported or signed file |
| `FileExport.FilePsbtSigner.AtomicWrite` | src/localwallet/signer/file.py:156-173 | The steps of a write (temporary file, data, replacement, cleanup), stopped after any of them, come to that outcome |
| `Hwi.Bus.OpenMatched` | src/localwallet/signer/hwi.py:668-714 | The bind answers as specified, with exactly one handle open on success and none on refusal |
| `Hwi.BindAnswerUnique` | src/localwallet/signer/hwi.py:668-714 | That answer is determined: a bind exactly when one candidate matches and every other was read and shown to differ |
| `Hwi.Bus.SignUnsigned` | src/localwallet/signer/hwi.py:780-820 | Signing ends with no handle open, with the bind's refusal or what follows a bind (bytes retried on a type error, the response normalized); derivations are the patched ones exactly when signing was attempted |
| `Hwi.SigningEndsExactly` | src/localwallet/signer/hwi.py:780-930 | A signing attempt ends with a document if and only if a device was bound, the patch had its fingerprint and the device gave that document, as text or, after a type error, for the bytes; and which refusal it is otherwise |
| `Hwi.Bus.PatchDerivations` | src/localwallet/signer/hwi.py:822-888 | The in-place rewrite is the patch, or nothing moves; it is refused exactly when there is an entry to patch and the master fingerprint is not four bytes of hex |
| `Hwi.PatchIsTargeted` | src/localwallet/signer/hwi.py:822-888 | Only this wallet's fingerprints change, paths and keys never, and patching twice is patching once |
| `Hwi.CorrectedEntryByEntry` | src/localwallet/signer/hwi.py:822-888 | Entry by entry, this wallet's carry the usable master fingerprint and everything else is as it was |
| `Hwi.PatchIsReversible` | src/localwallet/signer/hwi.py:822-888 | The reverse patch restores the entries if and only if no other entry carried the master fingerprint already |
| `Hwi.FromHexDropsBlanks` | src/localwallet/signer/hwi.py:878-884 | What is read of the master fingerprint is its text without blanks, in whole pairs of digits |
| `Hwi.PlainHexReadsAsItself` | src/localwallet/signer/hwi.py:878-884 | Hex without blanks is read as itself |
| `Hwi.MasterReadExactly` | src/localwallet/signer/hwi.py:878-884 | A master fingerprint is usable if and only if its text reads as four bytes |
| `Hwi.SelectCandidates` | src/localwallet/signer/hwi.py:603-640 | The readable devices, or the refusal that fits why there are none: no device, a Jade, a host-side PIN, locked |
| `Hwi.ReadableKeepsExactlyTheReadable` | src/localwallet/signer/hwi.py:603-640 | A device is a candidate exactly when it is present and readable |
| `Hwi.Bus.CloseAll` | src/localwallet/signer/hwi.py:737-753 | Closes exactly the given handles |
| `Watch.IncomingWatcher.Tick` | src/localwallet/chain/watch.py:246-292 | One cycle is the step that runs are made of, and surfaces exactly what its observations add to the events of everything observed |
| `Watch.RunsSurfaceTheirObservations` | src/localwallet/chain/watch.py:246-292 | Every run of cycles, enabled or not, answers exactly the events read off its observations and remembers exactly their incoming transactions |
| `Watch.EventsIgnoreTheSplit` | src/localwallet/chain/watch.py:246-292 | Two runs with the same observations, however split into cycles, answer the same events and end with the same memory |
| `Watch.EachRunSurfacesOnce` | src/localwallet/chain/watch.py:246-292 | Over every run of cycles at most one event of each kind per transaction |
| `Watch.EachRunTellsItsSightings` | src/localwallet/chain/watch.py:248-292 | Every event of every run carries the address, amount, height and time of its own sighting, and events come in the order of their sightings |
| `Watch.ExactlyOnce` | src/localwallet/chain/watch.py:254-292 | At most one event of each kind per transaction, and exactly when each occurs |
| `Watch.ConfirmedAlone` | src/localwallet/chain/watch.py:261-292 | A confirmed event without a received one occurs if and only if the first sighting lacked an address or amount and the first confirmed one had both |
| `Watch.ConfirmedCanComeAlone` | src/localwallet/chain/watch.py:261-292 | A concrete run in which it does |
| `Watch.EdgesAlternate` | src/localwallet/chain/watch.py:222-244 | The answers of any series of marks strictly alternate, beginning with a start |
| `Watch.IncomingWatcher.MarkPollFailed` | src/localwallet/chain/watch.py:222-232 | The marking step for a failure: a start exactly on the first failure of a streak |
| `Watch.IncomingWatcher.MarkPollSucceeded` | src/localwallet/chain/watch.py:234-244 | The marking step for a success: an end exactly when a streak was on |
| `Watch.IncomingWatcher.PollDue` | src/localwallet/chain/watch.py:212-220 | Due exactly when enabled and the interval has passed |
| `Watch.IncomingWatcher.SetInterval` | src/localwallet/chain/watch.py:196-210 | Rebinding keeps memory and last poll time |
| `AgentLoop.ContextRefinesLog` | src/localwallet/agent/loop.py:193-215 | After any history the window is exactly the last twenty turns since the last scrub and the summary is exact about the turns before them |
| `AgentLoop.NothingLost` | src/localwallet/agent/loop.py:202-215 | Window and summary together account for the whole log, in total and per intent |
| `AgentLoop.ExtrasAreSums` | src/localwallet/agent/session.py:218-220 | The extra counters are sums since the last scrub, undisturbed by turns |
| `AgentLoop.SessionSummary.FoldTurn` | src/localwallet/agent/session.py:203-216 | Whole new summary of one folded turn |
| `AgentLoop.SessionSummary.RecordExtra` | src/localwallet/agent/session.py:218-220 | Whole new summary after a counter |
| `AgentLoop.Agent.Prune` | src/localwallet/agent/loop.py:202-215 | The loop folds exactly the excess, oldest first |
| `AgentLoop.Agent.AddTurn` | src/localwallet/agent/loop.py:193-200 | One recorded turn |
| `AgentLoop.Agent.RecordEvent` | src/localwallet/agent/loop.py:224-230 | One counted event |
| `AgentLoop.Agent.ScrubSession` | src/localwallet/agent/loop.py:242-250 | Window and summary are gone |
| `AgentLoop.Agent.Run` | src/localwallet/agent/loop.py:264-313 | A request is its closed form: at most min(turn cap, retries + 1) calls, one handler, in the last, exactly when the decisive answer reaches one, `ok` only after it, one recorded turn unless failed |
| `AgentLoop.Agent.Converse` | src/localwallet/agent/loop.py:284-311 | The loop ends as the closed form says, with one handler, in the last call, exactly when the decisive answer reaches one |
| `AgentLoop.Agent.FinishOk` | src/localwallet/agent/loop.py:370-387 | The result carries the envelope and a clarify's question, and one turn is recorded |
| `AgentLoop.Agent.FinishEscalated` | src/localwallet/agent/loop.py:389-398 | The user is asked to clarify and one turn is recorded without an envelope |
| `AgentLoop.RequestsEndExactly` | src/localwallet/agent/loop.py:264-311 | A request told by its prompts: each after the first is the base prompt with a note of what was wrong with the answer just before; it ends with the first answer that is no invalid envelope, or at the limit, and the result is what that answer makes it |
| `AgentLoop.Decisive` | src/localwallet/protocol/dispatcher.py:134-149 | The first answer that is not a validation failure decides |
| `AgentLoop.OkWithinOneRetry` | src/localwallet/protocol/dispatcher.py:51-219 | With the shipped budget, `ok` exactly when the first answer, or after one slip the second, is handled |
| `Price.ConversionRoundTrip` | src/localwallet/chain/price.py:336-385 | Satoshis to minor units and back never gains and loses less than one minor unit's worth plus one |
| `Price.MinorIsTheFloor` | src/localwallet/chain/price.py:336-363 | The whole minor units are the largest number that the satoshis are worth, of yen or of hundredths |
| `Price.SatsAreTheFloor` | src/localwallet/chain/price.py:365-385 | The whole satoshis are the largest number that the amount buys |
| `Price.MinorIsSuperadditive` | src/localwallet/chain/price.py:336-363 | Splitting an amount loses at most one minor unit and never gains; monotone |
| `Price.LadderOverEveryRun` | src/localwallet/chain/price.py:259-328 | Every rate served is in that call's currency, quoted by the feed, and young, just fetched, or flagged and within the cap; refusals exactly when nothing usable is left; a failed fetch leaves the cache |
| `Price.CacheHoldsQuotes` | src/localwallet/chain/price.py:259-334 | The cache only ever holds validated, unflagged rates the feed quoted |
| `Price.ParseRate` | src/localwallet/chain/price.py:403-431 | A rate is read exactly when there is a usable quote in the asked currency, and is that quote |
| `Price.PriceOracle.Fresh` | src/localwallet/chain/price.py:259-301 | Whole new cache and answer, with at most one fetch; disabled and unavailable are told apart |
| `Price.PriceOracle.StaleOk` | src/localwallet/chain/price.py:303-328 | Whole new cache and answer; disabled and unavailable are told apart |
| `Price.PriceOracle.Invalidate` | src/localwallet/chain/price.py:330-334 | The cache is dropped |
| `Envelope.EnvelopeRoundTrip` | src/localwallet/protocol/envelope.py:1370-1407 | Validating the dump of an accepted envelope gives it back, params bound to its intent's own model; the dump is the payload up to writing an integral amount as a number |
| `Envelope.AcceptedExactlyWellTyped` | src/localwallet/protocol/envelope.py:1267-1367 | The accepted envelopes are exactly the well-typed ones |
| `Envelope.NullsWouldNotValidate` | src/localwallet/protocol/envelope.py:485-499 | Dumping absent keys as null would round-trip if and only if none is absent |
| `Envelope.NullNeverAccepted` | src/localwallet/protocol/envelope.py:539-707 | No field of any kind accepts null |
| `Envelope.FieldRoundTrip` | src/localwallet/protocol/envelope.py:539-707 | Each field's encoding decodes to the same value, and encodes what was given up to its canonical form |
| `Envelope.UnionBindingAgreesExactly` | src/localwallet/protocol/envelope.py:1291-1367 | Binding through the union in declared order accepts nothing more, and agrees on an accepted payload if and only if no earlier-declared model accepts the same params; else the cross-check refuses it |
| `Envelope.UnionNeverReadsAddresses` | src/localwallet/protocol/envelope.py:1300-1313 | The union would refuse every request for addresses |
| `Envelope.UnionWouldRefuseGetAddresses` | src/localwallet/protocol/envelope.py:1300-1313 | A concrete valid envelope, addresses without params, that the union would refuse |
| `Envelope.ShapeDoesNotDetermineIntent` | src/localwallet/protocol/envelope.py:1298-1340 | The params of a balance request are valid, with the same values, as params of an addresses request, and valid for coins |
| `Envelope.DumpBinds` | src/localwallet/protocol/envelope.py:1298-1340 | Binding the dump of typed params gives them back |
| `Envelope.BoundIsTyped` | src/localwallet/protocol/envelope.py:1298-1340 | Bound params have the declared types |
| `Envelope.NamesAreExact` | src/localwallet/protocol/envelope.py:358-461 | An intent is read from its own name and from no other text |
| `EnvelopeRules.ValueFitsExactly` | src/localwallet/protocol/envelope.py:539-707 | A present value is accepted if and only if it is of its kind: bounded numbers, texts and lists, listed literals, or a period of exactly one bounded unit |
| `EnvelopeRules.RulesAreTheKeys` | src/localwallet/protocol/envelope.py:899-921 | The rules between fields are rules between keys: one amount of two, at most one fee knob, no label mode without labels, and for each mode of a self-transfer its own keys alone |
| `EnvelopeRules.ParamsFitExactly` | src/localwallet/protocol/envelope.py:1298-1340 | Params are accepted if and only if every key is the model's, every required one is there, every value is of its kind, and the keys go together |
| `EnvelopeRules.EnvelopesAcceptedExactly` | src/localwallet/protocol/envelope.py:1370-1420 | A payload is accepted as an intent if and only if it has the three keys, version zero, the name of the intent, and fitting params |
| `EnvelopeRules.AmountCeilingIsTenSupplies` | src/localwallet/protocol/envelope.py:220-229 | A plain payment is valid if and only if it is of at least 546 satoshis and at most ten times the total supply |

## Left out

- CoreClient: the order of the posted descriptors, credentials, timeouts and back-off; deriving an address from a script is a parameter, and amounts are exact reals instead of 28-digit decimals.
- CoreClient.BitcoindClient: the tip, fee, relay-floor and status reads are one generic gated read; what each checks of its own fields before answering (a hash and a time, an estimated rate, a relay fee, a confirmation count) is not modelled.
- Electrum: two callers at once (a transport failure releases the lock before re-taking it to drop the connection, `chain/electrum.py:861-869`), a server that streams for ever without answering, the conversion of the retained relay fee for the broadcast gate, and the shape checks of entries and statuses.
- Electrum.ElectrumClient.FetchTransaction: the translation of the fetched transaction into an entry or a status.
- Runtime: the values of sampling parameters and the text of messages; failures before the offload decision (no wheel, no path, a malformed setting) are one failing step.
- Runtime.NoDeadlock: a step is always possible, but that a wedged model call ever returns is not claimed.
- Fees: Decimal's 28-digit context is exact real arithmetic; the log messages and the read-only accessors.
- FileExport: `import_signed` and PSBT parsing; that the file system replaces a file in one step is assumed, and a write that raises and a process that stops are one answer, `WriteFailed`.
- Hwi: the probe and unlock conversation, address display, enumeration errors, and the mapping of library exceptions to messages.
- Watch: reading transactions from the backend and the block-age line.
- AgentLoop: the rendered summary's 400-character slice, the redaction expressions, transcript export, and the texts of prompts, retry notes and messages.
- Price: argument type checks of the conversions, and how floats round: rates and amounts are exact reals.
- Envelope: text parsing, the wording of validation failures, business rules beyond the schema, and any scoring by which a union might prefer a later model over the first that accepts.
- `chain/esplora.py`, `chain/publicinfo.py` and `chain/eta.py`: an HTTP client whose calls share no state but a fallback of the base path, and a table from target and block age to a waiting time.
- `config.py`, `chain/config.py`, `node/`: settings read from the environment and from disk, and a detector of the user's own node on the loopback interface that gives advice.
- `protocol/intents.py`: the per-intent checks of meaning (addresses, references, filters) that only turn an accepted envelope into a list of complaints.
- `tx/`, `wallet/`, `store/`, `app.py`, `ui/`, the prompts, evaluation and tooling are not part of this model.
