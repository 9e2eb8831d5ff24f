/**
 The closed intent envelope (src/localwallet/protocol/envelope.py): the strict validator and the dump that omits
 absent keys undo each other.

 A params model is a table of fields plus a cross-field rule, as the source declares it; an instance has every
 declared attribute, an absent optional one being `None`. Payloads are parsed JSON documents.
 */
module Envelope {
  import opened Basics
  import opened JsonValues

  // ---------------------------------------------------------------- field values

  datatype Value =
    | VInt(n: int)
    | VNum(r: real)
    | VStr(s: string)
    | VBool(b: bool)
    | VWords(words: seq<string>)
    | VPeriod(unit: string, count: int)

  datatype Kind =
    | IntIn(low: int, high: int)
    | NumIn(lowest: real, highest: real)
    | Text(minChars: nat, maxChars: nat)
    | AnyText
    | OneOf(literals: set<string>)
    | Flag
    | Words(maxWords: nat, maxChars: nat)
    | Period

  const UNIT_CAPS := map["days" := 3660, "weeks" := 522, "months" := 120]

  function WordsOf(items: seq<Json>): Option<seq<string>> {
    if items == [] then Some([])
    else if !items[0].JStr? then None
    else
      match WordsOf(items[1..])
      case None => None
      case Some(rest) => Some([items[0].s] + rest)
  }

  /** Validation of one present field; explicit null, strings for numbers and booleans for integers are refused. */
  function Decode(kind: Kind, j: Json): Option<Value> {
    match kind
    case IntIn(low, high) => if j.JInt? && low <= j.n <= high then Some(VInt(j.n)) else None
    case NumIn(low, high) =>
      if j.JInt? && low <= j.n as real <= high then Some(VNum(j.n as real))
      else if j.JReal? && low <= j.r <= high then Some(VNum(j.r))
      else None
    case Text(low, high) => if j.JStr? && low <= |j.s| <= high then Some(VStr(j.s)) else None
    case AnyText => if j.JStr? then Some(VStr(j.s)) else None
    case OneOf(literals) => if j.JStr? && j.s in literals then Some(VStr(j.s)) else None
    case Flag => if j.JBool? then Some(VBool(j.b)) else None
    case Words(maxWords, maxChars) =>
      if j.JArr? && 1 <= |j.items| <= maxWords && WordsOf(j.items).Some? &&
         (forall w :: w in WordsOf(j.items).value ==> 1 <= |w| <= maxChars)
      then Some(VWords(WordsOf(j.items).value))
      else None
    case Period => DecodePeriod(j)
  }

  /** The nested model: three optional strict integers of which exactly one is present, and no other key. */
  function DecodePeriod(j: Json): Option<Value> {
    if !j.JObj? || !(j.members.Keys <= UNIT_CAPS.Keys) then None
    else if exists k :: k in j.members && !(j.members[k].JInt? && 1 <= j.members[k].n <= UNIT_CAPS[k]) then None
    else if j.members.Keys == {"days"} then Some(VPeriod("days", j.members["days"].n))
    else if j.members.Keys == {"weeks"} then Some(VPeriod("weeks", j.members["weeks"].n))
    else if j.members.Keys == {"months"} then Some(VPeriod("months", j.members["months"].n))
    else None
  }

  function WordItems(words: seq<string>): seq<Json> {
    seq(|words|, i requires 0 <= i < |words| => JStr(words[i]))
  }

  function Encode(v: Value): Json {
    match v
    case VInt(n) => JInt(n)
    case VNum(r) => JReal(r)
    case VStr(s) => JStr(s)
    case VBool(b) => JBool(b)
    case VWords(words) => JArr(WordItems(words))
    case VPeriod(unit, count) => JObj(map[unit := JInt(count)])
  }

  /** The one thing validation normalizes: an integral amount becomes a number. */
  function Canonical(kind: Kind, j: Json): Json {
    if kind.NumIn? && j.JInt? then JReal(j.n as real) else j
  }

  lemma {:induction false} WordsRoundTrip(items: seq<Json>)
    ensures WordsOf(items).Some? ==> WordItems(WordsOf(items).value) == items
  {
    if items != [] && items[0].JStr? {
      WordsRoundTrip(items[1..]);
      if WordsOf(items[1..]).Some? {
        var rest := WordsOf(items[1..]).value;
        assert WordItems([items[0].s] + rest) == [JStr(items[0].s)] + WordItems(rest);
        assert items == [items[0]] + items[1..];
      }
    }
  }

  lemma {:induction false} WordsOfItems(words: seq<string>)
    ensures WordsOf(WordItems(words)) == Some(words)
  {
    if words == [] {
    } else {
      WordsOfItems(words[1..]);
      assert WordItems(words)[1..] == WordItems(words[1..]);
      assert words == [words[0]] + words[1..];
    }
  }

  /** Field by field: the dump of an accepted value is the value's own text, and it is accepted again. */
  lemma FieldRoundTrip(kind: Kind, j: Json)
    requires Decode(kind, j).Some?
    ensures Encode(Decode(kind, j).value) == Canonical(kind, j)
    ensures Decode(kind, Encode(Decode(kind, j).value)) == Decode(kind, j)
  {
    match kind
    case Words(_, _) =>
      WordsRoundTrip(j.items);
    case Period =>
      var VPeriod(unit, count) := Decode(kind, j).value;
      assert j.members == map[unit := JInt(count)];
    case _ =>
  }

  lemma NullNeverAccepted(kind: Kind)
    ensures Decode(kind, JNull).None?
  {
  }

  // ---------------------------------------------------------------- the registered models

  datatype Intent =
    | Respond | Clarify | GetBalance | GetHistory | GetUtxos | NewAddress | CreateTx | ConfirmTx | SignTx
    | BroadcastTx | TxStatus | NodeStatus | SelfTransfer | BumpFee | GetAddresses

  function Name(i: Intent): string {
    match i
    case Respond => "respond"
    case Clarify => "clarify"
    case GetBalance => "get_balance"
    case GetHistory => "get_history"
    case GetUtxos => "get_utxos"
    case NewAddress => "new_address"
    case CreateTx => "create_tx"
    case ConfirmTx => "confirm_tx"
    case SignTx => "sign_tx"
    case BroadcastTx => "broadcast_tx"
    case TxStatus => "tx_status"
    case NodeStatus => "node_status"
    case SelfTransfer => "self_transfer"
    case BumpFee => "bump_fee"
    case GetAddresses => "get_addresses"
  }

  function EarlyIntentNamed(s: string): (r: Option<Intent>)
    ensures r.Some? ==> Name(r.value) == s
  {
    if s == "respond" then Some(Respond)
    else if s == "clarify" then Some(Clarify)
    else if s == "get_balance" then Some(GetBalance)
    else if s == "get_history" then Some(GetHistory)
    else if s == "get_utxos" then Some(GetUtxos)
    else if s == "new_address" then Some(NewAddress)
    else if s == "create_tx" then Some(CreateTx)
    else if s == "confirm_tx" then Some(ConfirmTx)
    else None
  }

  function LateIntentNamed(s: string): (r: Option<Intent>)
    ensures r.Some? ==> Name(r.value) == s
  {
    if s == "sign_tx" then Some(SignTx)
    else if s == "broadcast_tx" then Some(BroadcastTx)
    else if s == "tx_status" then Some(TxStatus)
    else if s == "node_status" then Some(NodeStatus)
    else if s == "self_transfer" then Some(SelfTransfer)
    else if s == "bump_fee" then Some(BumpFee)
    else if s == "get_addresses" then Some(GetAddresses)
    else None
  }

  function IntentNamed(s: string): Option<Intent> {
    var early := EarlyIntentNamed(s);
    if early.Some? then early else LateIntentNamed(s)
  }

  datatype Field = Required(kind: Kind) | Optional(kind: Kind)

  const SPEEDS: set<string> := {"fast", "medium", "slow"}
  const AMOUNT := IntIn(546, 21_000_000_000_000_000)
  const FEE_RATE := IntIn(1, 10_000)
  const ADDRESS_NUMBER := Optional(IntIn(1, 9_999_999))

  const FILTERS: map<string, Field> := map[
    "direction" := Optional(OneOf({"in", "out"})),
    "since" := Optional(Period),
    "label_set" := Optional(Words(10, 100)),
    "label_mode" := Optional(OneOf({"include", "exclude"}))]

  function Fields(i: Intent): map<string, Field> {
    match i
    case Respond => map["text" := Required(Text(1, 4000))]
    case Clarify => map["question" := Required(Text(1, 1000))]
    case GetBalance => map["address_number" := ADDRESS_NUMBER]
    case GetHistory => FILTERS["limit" := Optional(IntIn(1, 100))]
    case GetUtxos => FILTERS["address_number" := ADDRESS_NUMBER]
    case NewAddress => map["branch" := Optional(IntIn(0, 1))]
    case CreateTx => map[
      "recipient" := Required(Text(14, 100)),
      "amount_sats" := Optional(AMOUNT),
      "amount_usd" := Optional(NumIn(0.01, 1000000.0)),
      "fee_target" := Optional(OneOf(SPEEDS)),
      "fee_rate_sat_vb" := Optional(FEE_RATE)]
    case ConfirmTx => map["tx_ref" := Required(Text(1, 64))]
    case SignTx => map["tx_ref" := Required(Text(1, 64)), "signer" := Optional(OneOf({"file", "hwi"}))]
    case BroadcastTx => map["tx_ref" := Required(Text(1, 64))]
    case TxStatus => map["txid" := Required(AnyText)]
    case NodeStatus => map[]
    case SelfTransfer => map[
      "mode" := Required(OneOf({"split", "consolidate", "cpfp"})),
      "parts" := Optional(IntIn(2, 20)),
      "below_size_sats" := Optional(AMOUNT),
      "merge_coin" := Optional(Flag),
      "fee_target" := Optional(OneOf(SPEEDS))]
    case BumpFee => map[
      "target" := Required(Text(1, 64)),
      "funding_ref" := Optional(Text(1, 100)),
      "fee_target" := Optional(OneOf(SPEEDS)),
      "fee_rate_sat_vb" := Optional(FEE_RATE)]
    case GetAddresses => map["address_number" := ADDRESS_NUMBER]
  }

  /** Attribute values of a params instance: one entry per declared field. */
  type Params = map<string, Option<Value>>

  predicate Has(p: Params, k: string) {
    k in p && p[k].Some?
  }

  /** The model-level validators that relate several fields. */
  predicate CrossRule(i: Intent, p: Params) {
    match i
    case GetHistory => Has(p, "label_mode") ==> Has(p, "label_set")
    case GetUtxos => Has(p, "label_mode") ==> Has(p, "label_set")
    case CreateTx =>
      Has(p, "amount_sats") != Has(p, "amount_usd") && !(Has(p, "fee_target") && Has(p, "fee_rate_sat_vb"))
    case SelfTransfer =>
      if !Has(p, "mode") then false
      else if p["mode"] == Some(VStr("split")) then
        Has(p, "parts") && !Has(p, "below_size_sats") && !Has(p, "merge_coin")
      else if p["mode"] == Some(VStr("cpfp")) then !Has(p, "parts") && !Has(p, "below_size_sats")
      else Has(p, "below_size_sats") && !Has(p, "parts") && !Has(p, "merge_coin")
    case BumpFee => !(Has(p, "fee_target") && Has(p, "fee_rate_sat_vb"))
    case _ => true
  }

  // ---------------------------------------------------------------- validating and dumping params

  function Attribute(fields: map<string, Field>, members: map<string, Json>, k: string): Option<Value>
    requires k in fields
  {
    if k in members then Decode(fields[k].kind, members[k]) else None
  }

  predicate Refused(fields: map<string, Field>, members: map<string, Json>, k: string)
    requires k in fields
  {
    if k in members then Decode(fields[k].kind, members[k]).None? else fields[k].Required?
  }

  /** Closed world and field-by-field validation, before the rules that relate fields. */
  function BindFields(fields: map<string, Field>, members: map<string, Json>): Option<Params> {
    if !(members.Keys <= fields.Keys) then None
    else if exists k :: k in fields && Refused(fields, members, k) then None
    else Some(map k | k in fields :: Attribute(fields, members, k))
  }

  function ValidateParams(i: Intent, members: map<string, Json>): Option<Params> {
    match BindFields(Fields(i), members)
    case None => None
    case Some(p) => if CrossRule(i, p) then Some(p) else None
  }

  /** The dump drops every `None`, so an omitted key stays omitted. */
  function DumpParams(p: Params): map<string, Json> {
    map k | k in p && p[k].Some? :: Encode(p[k].value)
  }

  /** Typed values under closed keys, the required ones present. */
  predicate FieldTyped(fields: map<string, Field>, p: Params) {
    && p.Keys == fields.Keys
    && forall k :: k in p ==>
         if p[k].Some? then Decode(fields[k].kind, Encode(p[k].value)) == p[k] else fields[k].Optional?
  }

  /** What an instance of the intent's model looks like. */
  predicate WellTyped(i: Intent, p: Params) {
    FieldTyped(Fields(i), p) && CrossRule(i, p)
  }

  lemma DumpBinds(fields: map<string, Field>, p: Params)
    requires FieldTyped(fields, p)
    ensures BindFields(fields, DumpParams(p)) == Some(p)
  {
    var members := DumpParams(p);
    forall k | k in fields
      ensures !Refused(fields, members, k) && Attribute(fields, members, k) == p[k]
    {
    }
    assert (map k | k in fields :: Attribute(fields, members, k)) == p;
  }

  /** The dump of what was bound is what was given, up to the canonical form of each value. */
  lemma {:induction false} BoundIsTyped(fields: map<string, Field>, members: map<string, Json>)
    requires BindFields(fields, members).Some?
    ensures FieldTyped(fields, BindFields(fields, members).value)
    ensures DumpParams(BindFields(fields, members).value) ==
            map k | k in members && k in fields :: Canonical(fields[k].kind, members[k])
  {
    var p := BindFields(fields, members).value;
    forall k | k in fields
      ensures p[k] == Attribute(fields, members, k)
      ensures if k in members then
                p[k].Some? && Decode(fields[k].kind, Encode(p[k].value)) == p[k] &&
                Encode(p[k].value) == Canonical(fields[k].kind, members[k])
              else p[k].None? && fields[k].Optional?
    {
      assert !Refused(fields, members, k);
      if k in members {
        FieldRoundTrip(fields[k].kind, members[k]);
      }
    }
  }

  // ---------------------------------------------------------------- the envelope

  datatype Envelope = Envelope(intent: Intent, model: Intent, params: Params)

  /** The intents in the order in which the params union lists their models. */
  const DECLARED: seq<Intent> := [
    Respond, Clarify, GetBalance, GetHistory, GetUtxos, NewAddress, CreateTx, ConfirmTx, SignTx,
    BroadcastTx, TxStatus, NodeStatus, SelfTransfer, BumpFee, GetAddresses]

  /** How params find their model: through the registry entry of the intent, or as the union's first match. */
  datatype Binding = IntentFirst | UnionOrder

  predicate Accepts(i: Intent, members: map<string, Json>) {
    ValidateParams(i, members).Some?
  }

  function FirstIn(order: seq<Intent>, accepts: Intent -> bool): Option<Intent> {
    if order == [] then None
    else
      var earlier := FirstIn(order[..|order| - 1], accepts);
      if earlier.Some? then earlier else if accepts(order[|order| - 1]) then Some(order[|order| - 1]) else None
  }

  /** The first model in this order that accepts the members. */
  function FirstAccepting(order: seq<Intent>, members: map<string, Json>): Option<Intent> {
    FirstIn(order, i => Accepts(i, members))
  }

  function ModelFor(binding: Binding, i: Intent, members: map<string, Json>): Option<Intent> {
    match binding
    case IntentFirst => Some(i)
    case UnionOrder => FirstAccepting(DECLARED, members)
  }

  /** The check after binding: the instance must be of the model registered for the intent. */
  function CrossChecked(e: Envelope): Option<Envelope> {
    if e.model == e.intent then Some(e) else None
  }

  predicate WellFormed(j: Json) {
    && j.JObj? && j.members.Keys == {"v", "intent", "params"}
    && j.members["v"] == JInt(0)
    && j.members["intent"].JStr? && IntentNamed(j.members["intent"].s).Some?
    && j.members["params"].JObj?
  }

  function Validate(binding: Binding, j: Json): Option<Envelope> {
    if !WellFormed(j) then None
    else
      var intent, members := IntentNamed(j.members["intent"].s).value, j.members["params"].members;
      var model := ModelFor(binding, intent, members);
      if model.None? || ValidateParams(model.value, members).None? then None
      else CrossChecked(Envelope(intent, model.value, ValidateParams(model.value, members).value))
  }

  /** Intent first: the params are validated by exactly the model registered for the declared intent. */
  function ValidatePayload(j: Json): Option<Envelope> {
    Validate(IntentFirst, j)
  }

  function Dump(e: Envelope): Json {
    JObj(map["v" := JInt(0), "intent" := JStr(Name(e.intent)), "params" := JObj(DumpParams(e.params))])
  }

  /** The payload with integral `amount_usd` written as a number; nothing else is touched. */
  function CanonicalPayload(e: Envelope, j: Json): Json
    requires j.JObj? && "params" in j.members && j.members["params"].JObj?
  {
    var members := j.members["params"].members;
    JObj(j.members["params" := JObj(
      map k | k in members && k in Fields(e.intent) :: Canonical(Fields(e.intent)[k].kind, members[k]))])
  }

  lemma NamesAreRead(i: Intent)
    ensures IntentNamed(Name(i)) == Some(i)
  {
  }

  lemma NamesAreExact(s: string, i: Intent)
    ensures IntentNamed(s) == Some(i) <==> s == Name(i)
  {
    NamesAreRead(i);
  }

  /** A well-typed envelope is validated from its own dump. */
  lemma DumpValidates(e: Envelope)
    requires e.model == e.intent && WellTyped(e.intent, e.params)
    ensures ValidatePayload(Dump(e)) == Some(e)
  {
    NamesAreRead(e.intent);
    DumpBinds(Fields(e.intent), e.params);
    assert Dump(e).members.Keys == {"v", "intent", "params"};
  }

  /** What validation answers is what binding the params to the intent's own fields answers. */
  lemma AcceptedIsBound(j: Json)
    requires ValidatePayload(j).Some?
    ensures var e := ValidatePayload(j).value;
            && WellFormed(j) && IntentNamed(j.members["intent"].s) == Some(e.intent) && e.model == e.intent
            && BindFields(Fields(e.intent), j.members["params"].members) == Some(e.params)
            && CrossRule(e.intent, e.params)
  {
  }

  lemma DumpIsCanonical(e: Envelope, j: Json)
    requires WellFormed(j) && j.members["intent"].s == Name(e.intent)
    requires var members := j.members["params"].members;
             DumpParams(e.params) ==
             map k | k in members && k in Fields(e.intent) :: Canonical(Fields(e.intent)[k].kind, members[k])
    ensures Dump(e) == CanonicalPayload(e, j)
  {
    assert Dump(e).members == CanonicalPayload(e, j).members;
  }

  lemma AcceptedIsTyped(j: Json)
    requires ValidatePayload(j).Some?
    ensures var e := ValidatePayload(j).value;
            && WellFormed(j)
            && e.model == e.intent && WellTyped(e.intent, e.params)
            && Dump(e) == CanonicalPayload(e, j)
  {
    AcceptedIsBound(j);
    var e := ValidatePayload(j).value;
    NamesAreExact(j.members["intent"].s, e.intent);
    BoundIsTyped(Fields(e.intent), j.members["params"].members);
    DumpIsCanonical(e, j);
  }

  /**
   Validating the dump of an accepted envelope gives the same envelope back, its params bound to exactly the
   registered model; and the dump is the accepted payload itself, up to writing an integral amount as a number.
   */
  lemma {:induction false} EnvelopeRoundTrip(j: Json)
    requires ValidatePayload(j).Some?
    ensures var e := ValidatePayload(j).value;
            && WellFormed(j)
            && e.model == e.intent && WellTyped(e.intent, e.params)
            && ValidatePayload(Dump(e)) == Some(e)
            && Dump(e) == CanonicalPayload(e, j)
  {
    AcceptedIsTyped(j);
    DumpValidates(ValidatePayload(j).value);
  }

  /** The accepted envelopes are exactly the well-typed ones: each of them is validated from its own dump. */
  lemma AcceptedExactlyWellTyped(e: Envelope)
    ensures (exists j :: ValidatePayload(j) == Some(e)) <==> e.model == e.intent && WellTyped(e.intent, e.params)
  {
    if e.model == e.intent && WellTyped(e.intent, e.params) {
      DumpValidates(e);
    }
    if j :| ValidatePayload(j) == Some(e) {
      EnvelopeRoundTrip(j);
    }
  }

  /** A dump that wrote absent keys as null instead of omitting them. */
  function DumpWithNulls(p: Params): map<string, Json> {
    map k | k in p :: if p[k].Some? then Encode(p[k].value) else JNull
  }

  /** The omission is what the round trip rests on: with nulls it would hold exactly when no key is absent. */
  lemma NullsWouldNotValidate(i: Intent, p: Params)
    requires WellTyped(i, p)
    ensures ValidateParams(i, DumpWithNulls(p)) == Some(p) <==> forall k :: k in p ==> p[k].Some?
  {
    var fields, members := Fields(i), DumpWithNulls(p);
    if k :| k in p && p[k].None? {
      NullNeverAccepted(fields[k].kind);
      assert k in members && members[k] == JNull;
      assert k in fields && Refused(fields, members, k);
    } else {
      assert members == DumpParams(p);
      DumpBinds(fields, p);
    }
  }

  /** A model before the intent's own in this order accepts the same members. */
  predicate AcceptedEarlier(order: seq<Intent>, members: map<string, Json>, i: Intent) {
    exists k, n :: 0 <= k < n < |order| && order[n] == i && Accepts(order[k], members)
  }

  predicate FirstAt(order: seq<Intent>, accepts: Intent -> bool, m: nat) {
    m < |order| && accepts(order[m]) && forall k :: 0 <= k < m ==> !accepts(order[k])
  }

  /** The choice is an accepted intent with no accepted one before it, or there is none at all. */
  lemma {:induction false} FirstInIs(order: seq<Intent>, accepts: Intent -> bool)
    ensures match FirstIn(order, accepts)
            case None => forall k :: 0 <= k < |order| ==> !accepts(order[k])
            case Some(i) => exists m :: 0 <= m < |order| && order[m] == i && FirstAt(order, accepts, m)
    decreases |order|
  {
    if order == [] {
    } else {
      var init := order[..|order| - 1];
      FirstInIs(init, accepts);
      assert forall k :: 0 <= k < |init| ==> order[k] == init[k];
      if FirstIn(init, accepts).Some? {
        var m :| 0 <= m < |init| && init[m] == FirstIn(init, accepts).value && FirstAt(init, accepts, m);
        assert FirstAt(order, accepts, m);
      } else if accepts(order[|order| - 1]) {
        assert FirstAt(order, accepts, |order| - 1);
      }
    }
  }

  lemma FirstInChooses(order: seq<Intent>, accepts: Intent -> bool, i: Intent, p: nat)
    requires ListedOnce(order, i, p) && accepts(i)
    ensures FirstIn(order, accepts) == Some(i) <==> forall k :: 0 <= k < p ==> !accepts(order[k])
  {
    FirstInIs(order, accepts);
    assert accepts(order[p]);
    var m :| 0 <= m < |order| && order[m] == FirstIn(order, accepts).value && FirstAt(order, accepts, m);
  }

  predicate ListedOnce(order: seq<Intent>, i: Intent, p: nat) {
    p < |order| && order[p] == i && forall n :: 0 <= n < |order| && order[n] == i ==> n == p
  }

  /** The union comes out at an accepting intent of its order exactly when nothing before it accepts. */
  lemma UnionChoosesTheIntents(order: seq<Intent>, members: map<string, Json>, i: Intent, p: nat)
    requires ListedOnce(order, i, p) && Accepts(i, members)
    ensures FirstAccepting(order, members) == Some(i) <==> !AcceptedEarlier(order, members, i)
  {
    var accepts := i => Accepts(i, members);
    FirstInChooses(order, accepts, i, p);
    if AcceptedEarlier(order, members, i) {
      var k, n :| 0 <= k < n < |order| && order[n] == i && Accepts(order[k], members);
      assert n == p && accepts(order[k]);
    } else {
      assert forall k :: 0 <= k < p ==> !Accepts(order[k], members);
    }
  }

  function Position(i: Intent): nat {
    match i
    case Respond => 0 case Clarify => 1 case GetBalance => 2 case GetHistory => 3 case GetUtxos => 4
    case NewAddress => 5 case CreateTx => 6 case ConfirmTx => 7 case SignTx => 8 case BroadcastTx => 9
    case TxStatus => 10 case NodeStatus => 11 case SelfTransfer => 12 case BumpFee => 13 case GetAddresses => 14
  }

  lemma EveryIntentDeclaredOnce(i: Intent)
    ensures ListedOnce(DECLARED, i, Position(i))
  {
    assert forall n :: 0 <= n < 15 ==> Position(DECLARED[n]) == n;
  }

  /** What either binding makes of params that the intent's own model accepts. */
  lemma BindingsOfAccepted(j: Json)
    requires WellFormed(j) && ValidatePayload(j).Some?
    ensures var i, members := IntentNamed(j.members["intent"].s).value, j.members["params"].members;
            && Accepts(i, members) && ValidatePayload(j).value.intent == i
            && (FirstAccepting(DECLARED, members) == Some(i) ==> Validate(UnionOrder, j) == ValidatePayload(j))
            && (FirstAccepting(DECLARED, members) != Some(i) ==> Validate(UnionOrder, j).None?)
  {
  }

  lemma UnionAcceptsNoMore(j: Json)
    requires Validate(UnionOrder, j).Some?
    ensures ValidatePayload(j).Some?
  {
  }

  /**
   Why the intent is looked up first. Binding params through the union accepts nothing that intent-first binding
   refuses, and agrees with it on an accepted payload if and only if no earlier-declared model accepts the same
   params; otherwise the cross-check refuses a valid envelope.
   */
  lemma UnionBindingAgreesExactly(j: Json)
    ensures ValidatePayload(j).None? ==> Validate(UnionOrder, j).None?
    ensures ValidatePayload(j).Some? ==>
              WellFormed(j) &&
              (Validate(UnionOrder, j) == ValidatePayload(j) <==>
                 !AcceptedEarlier(DECLARED, j.members["params"].members, ValidatePayload(j).value.intent)) &&
              (Validate(UnionOrder, j) != ValidatePayload(j) ==> Validate(UnionOrder, j).None?)
  {
    if Validate(UnionOrder, j).Some? {
      UnionAcceptsNoMore(j);
    }
    if ValidatePayload(j).Some? {
      BindingsOfAccepted(j);
      var i, members := IntentNamed(j.members["intent"].s).value, j.members["params"].members;
      EveryIntentDeclaredOnce(i);
      UnionChoosesTheIntents(DECLARED, members, i, Position(i));
    }
  }

  lemma EarlierAt(order: seq<Intent>, members: map<string, Json>, k: nat, n: nat)
    requires k < n < |order| && Accepts(order[k], members)
    ensures AcceptedEarlier(order, members, order[n])
  {
  }

  lemma BalanceBeforeAddresses()
    ensures |DECLARED| == 15 && DECLARED[2] == GetBalance && DECLARED[14] == GetAddresses
  {
  }

  lemma AddressesAcceptedEarlier(members: map<string, Json>)
    requires Accepts(GetAddresses, members)
    ensures AcceptedEarlier(DECLARED, members, GetAddresses)
  {
    ShapeDoesNotDetermineIntent(members);
    BalanceBeforeAddresses();
    EarlierAt(DECLARED, members, 2, 14);
  }

  lemma AddressesNeverComeFirst(members: map<string, Json>)
    ensures Accepts(GetAddresses, members) ==> FirstAccepting(DECLARED, members) != Some(GetAddresses)
  {
    if Accepts(GetAddresses, members) {
      AddressesAcceptedEarlier(members);
      EveryIntentDeclaredOnce(GetAddresses);
      UnionChoosesTheIntents(DECLARED, members, GetAddresses, Position(GetAddresses));
    }
  }

  /** The union would refuse every request for addresses: a balance request takes the same params and comes first. */
  lemma UnionNeverReadsAddresses(j: Json)
    requires WellFormed(j) && IntentNamed(j.members["intent"].s) == Some(GetAddresses)
    ensures Validate(UnionOrder, j).None?
  {
    AddressesNeverComeFirst(j.members["params"].members);
    if ValidatePayload(j).Some? {
      BindingsOfAccepted(j);
    } else if Validate(UnionOrder, j).Some? {
      UnionAcceptsNoMore(j);
    }
  }

  function EmptyRequest(i: Intent): Json {
    JObj(map["v" := JInt(0), "intent" := JStr(Name(i)), "params" := JObj(map[])])
  }

  /** Asking for the addresses without a number is valid, and is one of the envelopes the union would refuse. */
  lemma UnionWouldRefuseGetAddresses()
    ensures ValidatePayload(EmptyRequest(GetAddresses)).Some?
    ensures Validate(UnionOrder, EmptyRequest(GetAddresses)).None?
  {
    var j := EmptyRequest(GetAddresses);
    NamesAreRead(GetAddresses);
    assert j.members.Keys == {"v", "intent", "params"};
    AddressesNeedNoParams();
    UnionNeverReadsAddresses(j);
  }

  lemma AddressesNeedNoParams()
    ensures Accepts(GetAddresses, map[])
  {
    var fields := Fields(GetAddresses);
    assert forall k :: k in fields ==> !Refused(fields, map[], k);
  }

  /**
   The shape of the params does not tell the intents apart: every params object valid for one address-scoped read
   is valid, with the same values, for the other, so the pairing must come from the declared intent.
   */
  lemma ShapeDoesNotDetermineIntent(members: map<string, Json>)
    ensures ValidateParams(GetBalance, members) == ValidateParams(GetAddresses, members)
    ensures ValidateParams(GetBalance, members).Some? ==> ValidateParams(GetUtxos, members).Some?
  {
    var balance, utxos := Fields(GetBalance), Fields(GetUtxos);
    if ValidateParams(GetBalance, members).Some? {
      assert members.Keys <= {"address_number"};
      forall k | k in utxos
        ensures !Refused(utxos, members, k)
      {
        if k in members {
          assert k in balance && !Refused(balance, members, k) && k == "address_number";
        }
      }
      assert !Has(BindFields(utxos, members).value, "label_mode");
    }
  }
}
