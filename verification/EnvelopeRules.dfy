/**
 Which envelopes are valid (src/localwallet/protocol/envelope.py), said over the payload itself: the keys it may
 and must have, what each value may be, and which keys go together. The validator accepts exactly these.
 */
module EnvelopeRules {
  import opened Basics
  import opened JsonValues
  import opened Envelope

  // ---------------------------------------------------------------- values

  /** The object has this one key, and under it a whole number from one to `most`. */
  predicate Counts(j: Json, unit: string, most: int) {
    j.JObj? && j.members.Keys == {unit} && j.members[unit].JInt? && 1 <= j.members[unit].n <= most
  }

  predicate ValueFits(kind: Kind, j: Json) {
    match kind
    case IntIn(low, high) => j.JInt? && low <= j.n <= high
    case NumIn(low, high) => (j.JInt? && low <= j.n as real <= high) || (j.JReal? && low <= j.r <= high)
    case Text(low, high) => j.JStr? && low <= |j.s| <= high
    case AnyText => j.JStr?
    case OneOf(literals) => j.JStr? && j.s in literals
    case Flag => j.JBool?
    case Words(maxWords, maxChars) =>
      j.JArr? && 1 <= |j.items| <= maxWords &&
      forall i :: 0 <= i < |j.items| ==> j.items[i].JStr? && 1 <= |j.items[i].s| <= maxChars
    case Period => Counts(j, "days", 3660) || Counts(j, "weeks", 522) || Counts(j, "months", 120)
  }

  lemma {:induction false} WordsAreTexts(items: seq<Json>)
    ensures WordsOf(items).Some? <==> forall i :: 0 <= i < |items| ==> items[i].JStr?
    ensures WordsOf(items).Some? ==>
              |WordsOf(items).value| == |items| &&
              forall i :: 0 <= i < |items| ==> items[i] == JStr(WordsOf(items).value[i])
  {
    if items == [] {
    } else {
      WordsAreTexts(items[1..]);
      assert forall i :: 1 <= i < |items| ==> items[i] == items[1..][i - 1];
    }
  }

  lemma PeriodFitsExactly(j: Json)
    ensures DecodePeriod(j).Some? <==> ValueFits(Period, j)
  {
    if ValueFits(Period, j) {
      assert UNIT_CAPS.Keys == {"days", "weeks", "months"};
    }
    if DecodePeriod(j).Some? {
      var VPeriod(unit, count) := DecodePeriod(j).value;
      assert unit in j.members;
    }
  }

  lemma WordsFitExactly(maxWords: nat, maxChars: nat, j: Json)
    ensures Decode(Words(maxWords, maxChars), j).Some? <==> ValueFits(Words(maxWords, maxChars), j)
  {
    if j.JArr? {
      WordsAreTexts(j.items);
      if WordsOf(j.items).Some? {
        var words := WordsOf(j.items).value;
        assert forall i :: 0 <= i < |words| ==> words[i] in words;
      }
    }
  }

  /** A present value is accepted exactly when it is what its kind admits. */
  lemma ValueFitsExactly(kind: Kind, j: Json)
    ensures Decode(kind, j).Some? <==> ValueFits(kind, j)
  {
    match kind
    case Words(maxWords, maxChars) => WordsFitExactly(maxWords, maxChars, j);
    case Period => PeriodFitsExactly(j);
    case _ =>
  }

  // ---------------------------------------------------------------- keys that go together

  /** Which keys of the params may stand together. */
  predicate KeysFit(i: Intent, members: map<string, Json>) {
    var keys := members.Keys;
    match i
    case GetHistory => "label_mode" in keys ==> "label_set" in keys
    case GetUtxos => "label_mode" in keys ==> "label_set" in keys
    case CreateTx => |keys * {"amount_sats", "amount_usd"}| == 1 && |keys * {"fee_target", "fee_rate_sat_vb"}| <= 1
    case BumpFee => |keys * {"fee_target", "fee_rate_sat_vb"}| <= 1
    case SelfTransfer =>
      var own := keys - {"mode", "fee_target"};
      && "mode" in keys
      && (members["mode"] == JStr("split") ==> own == {"parts"})
      && (members["mode"] == JStr("consolidate") ==> own == {"below_size_sats"})
      && (members["mode"] == JStr("cpfp") ==> own <= {"merge_coin"})
    case _ => true
  }

  lemma HowManyOfTwo(keys: set<string>, a: string, b: string)
    requires a != b
    ensures |keys * {a, b}| == (if a in keys then 1 else 0) + (if b in keys then 1 else 0)
  {
    var both := keys * {a, b};
    if a in keys && b in keys {
      assert both == {a, b};
    } else if a in keys {
      assert both == {a};
    } else if b in keys {
      assert both == {b};
    } else {
      assert both == {};
    }
  }

  lemma AmountsGoTogether(members: map<string, Json>, p: Params)
    requires forall k :: Has(p, k) <==> k in members
    ensures CrossRule(CreateTx, p) <==> KeysFit(CreateTx, members)
  {
    HowManyOfTwo(members.Keys, "amount_sats", "amount_usd");
    HowManyOfTwo(members.Keys, "fee_target", "fee_rate_sat_vb");
    assert Has(p, "amount_sats") <==> "amount_sats" in members;
    assert Has(p, "amount_usd") <==> "amount_usd" in members;
    assert Has(p, "fee_target") <==> "fee_target" in members;
    assert Has(p, "fee_rate_sat_vb") <==> "fee_rate_sat_vb" in members;
  }

  lemma KnobsGoTogether(members: map<string, Json>, p: Params)
    requires forall k :: Has(p, k) <==> k in members
    ensures CrossRule(BumpFee, p) <==> KeysFit(BumpFee, members)
  {
    HowManyOfTwo(members.Keys, "fee_target", "fee_rate_sat_vb");
    assert Has(p, "fee_target") <==> "fee_target" in members;
    assert Has(p, "fee_rate_sat_vb") <==> "fee_rate_sat_vb" in members;
  }

  lemma PresentExactly(fields: map<string, Field>, members: map<string, Json>, p: Params)
    requires BindFields(fields, members) == Some(p)
    ensures forall k :: Has(p, k) <==> k in members
  {
    forall k
      ensures Has(p, k) <==> k in members
    {
      if k in fields {
        assert !Refused(fields, members, k);
        assert p[k] == Attribute(fields, members, k);
      }
    }
  }

  /** Which of the three keys that belong to a mode are there, told one by one. */
  lemma OwnKeys(keys: set<string>)
    requires keys <= {"mode", "parts", "below_size_sats", "merge_coin", "fee_target"}
    ensures var own := keys - {"mode", "fee_target"};
            var parts, below, merge := "parts" in keys, "below_size_sats" in keys, "merge_coin" in keys;
            && (own == {"parts"} <==> parts && !below && !merge)
            && (own == {"below_size_sats"} <==> !parts && below && !merge)
            && (own <= {"merge_coin"} <==> !parts && !below)
  {
    var own := keys - {"mode", "fee_target"};
    assert own <= {"parts", "below_size_sats", "merge_coin"};
    assert "parts" in own <==> "parts" in keys;
    assert "below_size_sats" in own <==> "below_size_sats" in keys;
    assert "merge_coin" in own <==> "merge_coin" in keys;
  }

  lemma BoundMode(members: map<string, Json>, p: Params)
    requires BindFields(Fields(SelfTransfer), members) == Some(p)
    ensures members.Keys <= {"mode", "parts", "below_size_sats", "merge_coin", "fee_target"}
    ensures "mode" in members && members["mode"].JStr? && "mode" in p && p["mode"] == Some(VStr(members["mode"].s))
    ensures members["mode"].s in {"split", "consolidate", "cpfp"}
  {
    assert !Refused(Fields(SelfTransfer), members, "mode");
    assert p["mode"] == Attribute(Fields(SelfTransfer), members, "mode");
  }

  lemma ModesOwnTheirKeys(members: map<string, Json>, p: Params)
    requires forall k :: Has(p, k) <==> k in members
    requires members.Keys <= {"mode", "parts", "below_size_sats", "merge_coin", "fee_target"}
    requires "mode" in members && members["mode"].JStr? && "mode" in p && p["mode"] == Some(VStr(members["mode"].s))
    requires members["mode"].s in {"split", "consolidate", "cpfp"}
    ensures CrossRule(SelfTransfer, p) <==> KeysFit(SelfTransfer, members)
  {
    OwnKeys(members.Keys);
    assert Has(p, "mode");
    assert Has(p, "parts") <==> "parts" in members;
    assert Has(p, "below_size_sats") <==> "below_size_sats" in members;
    assert Has(p, "merge_coin") <==> "merge_coin" in members;
  }

  /** Once the fields are bound, the rules between them are the rules between the keys. */
  lemma RulesAreTheKeys(i: Intent, members: map<string, Json>, p: Params)
    requires BindFields(Fields(i), members) == Some(p)
    ensures CrossRule(i, p) <==> KeysFit(i, members)
  {
    PresentExactly(Fields(i), members, p);
    match i
    case CreateTx => AmountsGoTogether(members, p);
    case BumpFee => KnobsGoTogether(members, p);
    case SelfTransfer =>
      BoundMode(members, p);
      ModesOwnTheirKeys(members, p);
    case _ =>
  }

  // ---------------------------------------------------------------- params and envelopes

  /** No key but the model's own, every required one, and each value of its kind. */
  predicate FieldsFit(fields: map<string, Field>, members: map<string, Json>) {
    && (forall k :: k in members ==> k in fields && ValueFits(fields[k].kind, members[k]))
    && (forall k :: k in fields && fields[k].Required? ==> k in members)
  }

  predicate ParamsFit(i: Intent, members: map<string, Json>) {
    FieldsFit(Fields(i), members) && KeysFit(i, members)
  }

  lemma FieldsFitExactly(fields: map<string, Field>, members: map<string, Json>)
    ensures BindFields(fields, members).Some? <==> FieldsFit(fields, members)
  {
    forall k | k in fields
      ensures Refused(fields, members, k) <==>
                if k in members then !ValueFits(fields[k].kind, members[k]) else fields[k].Required?
    {
      if k in members {
        ValueFitsExactly(fields[k].kind, members[k]);
      }
    }
  }

  lemma ParamsFitExactly(i: Intent, members: map<string, Json>)
    ensures ValidateParams(i, members).Some? <==> ParamsFit(i, members)
  {
    FieldsFitExactly(Fields(i), members);
    var bound := BindFields(Fields(i), members);
    if bound.Some? {
      RulesAreTheKeys(i, members, bound.value);
    }
  }

  /** The payload is an envelope of this intent: three keys, version zero, and params that fit the intent's model. */
  predicate EnvelopeOf(j: Json, i: Intent) {
    && j.JObj? && j.members.Keys == {"v", "intent", "params"}
    && j.members["v"] == JInt(0) && j.members["intent"] == JStr(Name(i))
    && j.members["params"].JObj? && ParamsFit(i, j.members["params"].members)
  }

  lemma AcceptedAsItsIntent(j: Json)
    ensures ValidatePayload(j).Some? <==>
              WellFormed(j) &&
              ValidateParams(IntentNamed(j.members["intent"].s).value, j.members["params"].members).Some?
    ensures ValidatePayload(j).Some? ==> Some(ValidatePayload(j).value.intent) == IntentNamed(j.members["intent"].s)
  {
  }

  /** A payload is accepted as an intent exactly when it is an envelope of it. */
  lemma EnvelopesAcceptedExactly(j: Json, i: Intent)
    ensures ValidatePayload(j).Some? && ValidatePayload(j).value.intent == i <==> EnvelopeOf(j, i)
  {
    AcceptedAsItsIntent(j);
    if j.JObj? && j.members.Keys == {"v", "intent", "params"} && j.members["intent"].JStr? && j.members["params"].JObj? {
      NamesAreExact(j.members["intent"].s, i);
      ParamsFitExactly(i, j.members["params"].members);
    }
  }

  const SUPPLY_SATS := 21_000_000 * 100_000_000

  /** The fields of a plain payment, and what they admit. */
  function PlainPayment(recipient: string, sats: int): map<string, Json> {
    map["recipient" := JStr(recipient), "amount_sats" := JInt(sats)]
  }

  lemma PlainKeysFit(recipient: string, sats: int)
    ensures KeysFit(CreateTx, PlainPayment(recipient, sats))
  {
    HowManyOfTwo(PlainPayment(recipient, sats).Keys, "amount_sats", "amount_usd");
    HowManyOfTwo(PlainPayment(recipient, sats).Keys, "fee_target", "fee_rate_sat_vb");
  }

  lemma PaymentFields()
    ensures var fields := Fields(CreateTx);
            && "recipient" in fields && fields["recipient"] == Required(Text(14, 100))
            && "amount_sats" in fields && fields["amount_sats"] == Optional(IntIn(546, 10 * SUPPLY_SATS))
            && forall k :: k in fields && fields[k].Required? ==> k == "recipient"
  {
  }

  lemma PaymentFits(fields: map<string, Field>, members: map<string, Json>, most: int)
    requires members.Keys == {"recipient", "amount_sats"} && members["amount_sats"].JInt?
    requires "recipient" in fields && fields["recipient"] == Required(Text(14, 100))
    requires forall k :: k in fields && fields[k].Required? ==> k == "recipient"
    requires ValueFits(Text(14, 100), members["recipient"])
    requires "amount_sats" in fields && fields["amount_sats"] == Optional(IntIn(546, most))
    ensures FieldsFit(fields, members) <==> 546 <= members["amount_sats"].n <= most
  {
    assert ValueFits(fields["amount_sats"].kind, members["amount_sats"]) <==> 546 <= members["amount_sats"].n <= most;
  }

  /**
   The ceiling of an amount is documented as the total supply. It is ten times that: a payment above the supply is
   valid exactly up to there.
   */
  lemma AmountCeilingIsTenSupplies(recipient: string, sats: int)
    requires 14 <= |recipient| <= 100
    ensures ParamsFit(CreateTx, PlainPayment(recipient, sats)) <==> 546 <= sats <= 10 * SUPPLY_SATS
  {
    PlainKeysFit(recipient, sats);
    PaymentFields();
    PaymentFits(Fields(CreateTx), PlainPayment(recipient, sats), 10 * SUPPLY_SATS);
  }
}
