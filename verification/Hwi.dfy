/**
 The USB signer's trust gate and handle accounting (src/localwallet/signer/hwi.py).

 A candidate is described by what happens when it is opened and asked for the wallet's account key; the set of
 open handles is real state, changed only by opening and closing.
 */
module Hwi {
  import opened Basics

  type Fingerprint = string

  /** The answer to the account-key question: a failure of any kind, or the key's fingerprint. */
  datatype KeyAnswer = KeyUnreadable | AccountKey(fingerprint: Fingerprint)

  datatype OpenAnswer = OpenRaises | NoClient | Client(key: KeyAnswer)

  datatype Device = Device(kind: string, readable: bool, needsPinSent: bool, opening: OpenAnswer)

  datatype Refusal =
    | NoDevices
    | JadeLocked
    | HostPin
    | Locked
    | OpenFailed
    | ClientGone
    | ReadFailed
    | Mismatch
    | MultipleMatches
    | BadPsbt
    | MasterUnreadable
    | SigningFailed
    | NothingSigned

  // ---------------------------------------------------------------- candidates

  predicate IsJade(d: Device) {
    "jade" <= d.kind
  }

  /** Every model of the family, whatever follows the family's name. */
  lemma JadeModels(d: Device, model: string)
    ensures d.kind == "jade" + model ==> IsJade(d)
    ensures IsJade(d) ==> |d.kind| >= 4 && d.kind[..4] == "jade"
  {
  }

  function Readable(devices: seq<Device>): seq<Device> {
    if devices == [] then []
    else Readable(devices[..|devices| - 1]) + (if devices[|devices| - 1].readable then [devices[|devices| - 1]] else [])
  }

  function SelectCandidates(devices: seq<Device>): (r: Result<seq<Device>, Refusal>)
    ensures r.Success? ==> r.value == Readable(devices) && r.value != []
    ensures r.Failure? ==> Readable(devices) == [] &&
                           (r.error == NoDevices <==> devices == []) &&
                           (r.error == JadeLocked <==> exists i :: 0 <= i < |devices| && IsJade(devices[i])) &&
                           (r.error == HostPin <==>
                              (forall i :: 0 <= i < |devices| ==> !IsJade(devices[i])) &&
                              exists i :: 0 <= i < |devices| && devices[i].needsPinSent)
  {
    if devices == [] then Failure(NoDevices)
    else if Readable(devices) != [] then Success(Readable(devices))
    else if exists i :: 0 <= i < |devices| && IsJade(devices[i]) then Failure(JadeLocked)
    else if exists i :: 0 <= i < |devices| && devices[i].needsPinSent then Failure(HostPin)
    else Failure(Locked)
  }

  /** Each readable device stands among the candidates as often as it was enumerated, and no other does. */
  lemma {:induction false} ReadableKeepsExactlyTheReadable(devices: seq<Device>, d: Device)
    ensures multiset(Readable(devices))[d] == if d.readable then multiset(devices)[d] else 0
    ensures d in Readable(devices) <==> d in devices && d.readable
  {
    if devices == [] {
    } else {
      var init, last := devices[..|devices| - 1], devices[|devices| - 1];
      ReadableKeepsExactlyTheReadable(init, d);
      assert devices == init + [last];
      assert multiset(devices)[d] == multiset(init)[d] + (if d == last then 1 else 0);
    }
  }

  // ---------------------------------------------------------------- what a bind should be

  predicate Answered(d: Device) {
    d.opening.Client? && d.opening.key.AccountKey?
  }

  predicate Matches(d: Device, expected: Fingerprint) {
    Answered(d) && d.opening.key.fingerprint == expected
  }

  predicate ShownToDiffer(d: Device, expected: Fingerprint) {
    Answered(d) && d.opening.key.fingerprint != expected
  }

  /** The indices that match among the first `n`, in order. */
  function MatchingUpTo(candidates: seq<Device>, expected: Fingerprint, n: nat): seq<nat>
    requires n <= |candidates|
  {
    if n == 0 then []
    else MatchingUpTo(candidates, expected, n - 1) + (if Matches(candidates[n - 1], expected) then [n - 1] else [])
  }

  /** The indices are those of the matching candidates among the first `n`, in order. */
  predicate AreMatching(candidates: seq<Device>, expected: Fingerprint, n: nat, m: seq<nat>)
    requires n <= |candidates|
  {
    && (forall i :: 0 <= i < |m| ==> m[i] < n && Matches(candidates[m[i]], expected))
    && (forall i, j :: 0 <= i < j < |m| ==> m[i] < m[j])
    && (forall i :: 0 <= i < n && Matches(candidates[i], expected) ==> i in m)
  }

  lemma OneMoreMatching(candidates: seq<Device>, expected: Fingerprint, n: nat, m: seq<nat>)
    requires n < |candidates| && AreMatching(candidates, expected, n, m)
    ensures AreMatching(candidates, expected, n + 1, m + (if Matches(candidates[n], expected) then [n] else []))
  {
    var longer := m + (if Matches(candidates[n], expected) then [n] else []);
    forall i | 0 <= i < |longer|
      ensures longer[i] < n + 1 && Matches(candidates[longer[i]], expected)
    {
      assert i < |m| ==> longer[i] == m[i];
    }
    forall i | 0 <= i < n + 1 && Matches(candidates[i], expected)
      ensures i in longer
    {
      if i == n {
        assert longer[|m|] == n;
      }
    }
  }

  predicate MatchedExactly(candidates: seq<Device>, expected: Fingerprint, n: nat)
    requires n <= |candidates|
  {
    AreMatching(candidates, expected, n, MatchingUpTo(candidates, expected, n))
  }

  lemma MatchingGrows(candidates: seq<Device>, expected: Fingerprint, n: nat)
    requires n < |candidates| && MatchedExactly(candidates, expected, n)
    ensures MatchedExactly(candidates, expected, n + 1)
  {
    OneMoreMatching(candidates, expected, n, MatchingUpTo(candidates, expected, n));
  }

  lemma NoneMatchYet(candidates: seq<Device>, expected: Fingerprint)
    ensures MatchedExactly(candidates, expected, 0)
  {
  }

  lemma {:induction false} MatchingIsExact(candidates: seq<Device>, expected: Fingerprint, n: nat)
    requires n <= |candidates|
    ensures MatchedExactly(candidates, expected, n)
  {
    if n == 0 {
      NoneMatchYet(candidates, expected);
    } else {
      MatchingIsExact(candidates, expected, n - 1);
      MatchingGrows(candidates, expected, n - 1);
    }
  }

  /** The first candidate that cannot be opened and read ends the attempt; its index, or the length. */
  function FirstTrouble(candidates: seq<Device>): (i: nat)
    ensures i <= |candidates| && (i < |candidates| ==> !Answered(candidates[i]))
    ensures forall j :: 0 <= j < i ==> Answered(candidates[j])
  {
    if candidates == [] || !Answered(candidates[0]) then 0 else 1 + FirstTrouble(candidates[1..])
  }

  function TroubleOf(d: Device): (r: Refusal)
    requires !Answered(d)
    ensures r == OpenFailed <==> d.opening == OpenRaises
    ensures r == ClientGone <==> d.opening == NoClient
    ensures r == ReadFailed <==> d.opening == Client(KeyUnreadable)
  {
    if d.opening.OpenRaises? then OpenFailed else if d.opening.NoClient? then ClientGone else ReadFailed
  }

  /** What binding the candidates must answer, said without the loop. */
  ghost predicate BindAnswer(candidates: seq<Device>, expected: Fingerprint, r: Result<nat, Refusal>) {
    match r
    case Success(i) =>
      && i < |candidates|
      && Matches(candidates[i], expected)
      && forall j :: 0 <= j < |candidates| && j != i ==> ShownToDiffer(candidates[j], expected)
    case Failure(e) =>
      if FirstTrouble(candidates) < |candidates| then e == TroubleOf(candidates[FirstTrouble(candidates)])
      else if forall j :: 0 <= j < |candidates| ==> ShownToDiffer(candidates[j], expected) then e == Mismatch
      else
        e == MultipleMatches &&
        exists i, j :: 0 <= i < j < |candidates| && Matches(candidates[i], expected) && Matches(candidates[j], expected)
  }

  /** The answer is determined, and it is a bind exactly when one candidate matches and all others were read. */
  lemma BindAnswerUnique(candidates: seq<Device>, expected: Fingerprint, a: Result<nat, Refusal>, b: Result<nat, Refusal>)
    requires BindAnswer(candidates, expected, a) && BindAnswer(candidates, expected, b)
    ensures a == b
    ensures a.Success? <==> exists i :: 0 <= i < |candidates| && Matches(candidates[i], expected) &&
                              forall j :: 0 <= j < |candidates| && j != i ==> ShownToDiffer(candidates[j], expected)
  {
    if a.Success? || b.Success? {
      var i := if a.Success? then a.value else b.value;
      assert Matches(candidates[i], expected);
    }
  }

  // ---------------------------------------------------------------- signing

  datatype Derivation = Derivation(fingerprint: Fingerprint, path: string, pubkey: string)

  /** The derivation entries of a parsed PSBT, inputs then outputs. */
  function Patched(entries: seq<Derivation>, account: Fingerprint, master: Fingerprint): (r: seq<Derivation>)
    ensures |r| == |entries|
  {
    seq(|entries|, i requires 0 <= i < |entries| =>
      if entries[i].fingerprint == account then entries[i].(fingerprint := master) else entries[i])
  }

  /** The device's answer to the master-fingerprint question, its text stripped and in lower case. */
  datatype MasterAnswer = NoGetter | GetterRaises | MasterText(text: string)

  predicate HexDigit(ch: char) {
    '0' <= ch <= '9' || 'a' <= ch <= 'f'
  }

  predicate Blank(ch: char) {
    ch == ' ' || 9 <= ch as int <= 13
  }

  /** Bytes written as pairs of digits, with blanks between pairs but not inside one; the digits read. */
  function FromHex(s: string): (digits: Option<string>)
    ensures digits.Some? ==> forall i :: 0 <= i < |digits.value| ==> HexDigit(digits.value[i])
  {
    if s == "" then Some("")
    else if Blank(s[0]) then FromHex(s[1..])
    else if |s| >= 2 && HexDigit(s[0]) && HexDigit(s[1]) && FromHex(s[2..]).Some? then
      Some(s[..2] + FromHex(s[2..]).value)
    else None
  }

  function WithoutBlanks(s: string): string {
    if s == "" then "" else (if Blank(s[0]) then "" else [s[0]]) + WithoutBlanks(s[1..])
  }

  lemma PairReads(a: char, b: char, rest: string)
    requires HexDigit(a) && HexDigit(b)
    ensures FromHex([a, b] + rest) ==
            if FromHex(rest).Some? then Some([a, b] + FromHex(rest).value) else None
    ensures WithoutBlanks([a, b] + rest) == [a, b] + WithoutBlanks(rest)
  {
    var s := [a, b] + rest;
    assert s[2..] == rest && s[..2] == [a, b];
    assert s[1..] == [b] + rest && s[1..][1..] == rest;
    assert WithoutBlanks(s) == [a] + WithoutBlanks([b] + rest);
  }

  /** A blank before a pair is skipped; a text that goes on with neither a blank nor a pair cannot be read. */
  lemma OtherTextReads(ch: char, rest: string)
    ensures Blank(ch) ==> FromHex([ch] + rest) == FromHex(rest)
    ensures !Blank(ch) && (!HexDigit(ch) || rest == "" || !HexDigit(rest[0])) ==> FromHex([ch] + rest) == None
  {
    assert ([ch] + rest)[1..] == rest;
  }

  /** If the text can be read, what is read are its characters but for the blanks, in pairs. */
  predicate DropsBlanks(s: string) {
    FromHex(s).Some? ==> FromHex(s).value == WithoutBlanks(s) && |FromHex(s).value| % 2 == 0
  }

  lemma BlankDropped(ch: char, rest: string)
    requires Blank(ch) && DropsBlanks(rest)
    ensures DropsBlanks([ch] + rest)
  {
    OtherTextReads(ch, rest);
    assert ([ch] + rest)[1..] == rest;
  }

  lemma PairKept(a: char, b: char, rest: string)
    requires HexDigit(a) && HexDigit(b) && DropsBlanks(rest)
    ensures DropsBlanks([a, b] + rest)
  {
    PairReads(a, b, rest);
  }

  lemma {:induction false} FromHexDropsBlanks(s: string)
    ensures DropsBlanks(s)
  {
    if s == "" {
    } else if Blank(s[0]) {
      FromHexDropsBlanks(s[1..]);
      BlankDropped(s[0], s[1..]);
      assert [s[0]] + s[1..] == s;
    } else if |s| >= 2 && HexDigit(s[0]) && HexDigit(s[1]) {
      FromHexDropsBlanks(s[2..]);
      PairKept(s[0], s[1], s[2..]);
      assert [s[0], s[1]] + s[2..] == s;
    }
  }

  /** A text of digit pairs alone is read as itself. */
  lemma {:induction false} PlainHexReadsAsItself(s: string)
    requires |s| % 2 == 0 && forall i :: 0 <= i < |s| ==> HexDigit(s[i])
    ensures FromHex(s) == Some(s)
  {
    if s == "" {
    } else {
      PlainHexReadsAsItself(s[2..]);
      PairReads(s[0], s[1], s[2..]);
      assert s == [s[0], s[1]] + s[2..];
    }
  }

  /** Only four bytes are a usable master fingerprint. */
  function MasterOf(answer: MasterAnswer): (master: Option<Fingerprint>)
    ensures master.Some? ==> |master.value| == 8 && forall i :: 0 <= i < 8 ==> HexDigit(master.value[i])
  {
    if answer.MasterText? && FromHex(answer.text).Some? && |FromHex(answer.text).value| == 8 then FromHex(answer.text)
    else None
  }

  /**
   The patch corrects this wallet's entries and nothing else: paths and keys are kept everywhere, entries of other
   wallets are kept whole, and when the two fingerprints differ no account fingerprint is left, so that patching
   again finds nothing to do.
   */
  lemma PatchIsTargeted(entries: seq<Derivation>, account: Fingerprint, master: Fingerprint)
    ensures var r := Patched(entries, account, master);
            && (forall i :: 0 <= i < |entries| ==>
                  r[i].path == entries[i].path && r[i].pubkey == entries[i].pubkey &&
                  (entries[i].fingerprint != account ==> r[i] == entries[i]) &&
                  (entries[i].fingerprint == account ==> r[i].fingerprint == master))
            && (account != master ==> forall i :: 0 <= i < |r| ==> r[i].fingerprint != account)
            && Patched(r, account, master) == r
  {
    var r := Patched(entries, account, master);
    forall i | 0 <= i < |entries|
      ensures Patched(r, account, master)[i] == r[i]
    {
    }
  }

  /** The reverse patch undoes the patch exactly when no other wallet's entry carried the master fingerprint already. */
  lemma PatchIsReversible(entries: seq<Derivation>, account: Fingerprint, master: Fingerprint)
    ensures Patched(Patched(entries, account, master), master, account) == entries <==>
              account == master || forall i :: 0 <= i < |entries| ==> entries[i].fingerprint != master
  {
    var back := Patched(Patched(entries, account, master), master, account);
    assert forall i :: 0 <= i < |entries| && entries[i].fingerprint == master ==> back[i].fingerprint == account;
    assert forall i :: 0 <= i < |entries| && entries[i].fingerprint != master ==> back[i] == entries[i];
  }

  /** What a signing response holds, on its own or under its `psbt` key: text, raw bytes, or no transaction. */
  datatype Response = Text(s: string) | RawBytes(bytes: string) | NoPsbt

  datatype Call = RaisesTypeError | Raises | Returns(response: Response)

  /** The device's answers to the document as text and, for older libraries, as raw bytes. */
  datatype SignAnswer = SignAnswer(toText: Call, toBytes: Call)

  /** Base64 encoding and the removal of surrounding whitespace. */
  datatype Codec = Codec(encode: string -> string, strip: string -> string)

  /** The bytes form is tried exactly when the text form is refused as a type error. */
  function SignCall(a: SignAnswer): Call {
    if a.toText.RaisesTypeError? then a.toBytes else a.toText
  }

  function Normalized(codec: Codec, r: Response): (text: Option<string>)
    ensures text.None? <==> r.NoPsbt? || (r.RawBytes? && r.bytes == "") || (r.Text? && codec.strip(r.s) == "")
  {
    match r
    case Text(s) => if codec.strip(s) == "" then None else Some(codec.strip(s))
    case RawBytes(bytes) => if bytes == "" then None else Some(codec.encode(bytes))
    case NoPsbt => None
  }

  lemma MasterReadExactly(answer: MasterAnswer, master: Fingerprint)
    ensures MasterOf(answer) == Some(master) <==>
              answer.MasterText? && FromHex(answer.text) == Some(master) && |master| == 8
  {
  }

  /** The entries as they are sent to the device. */
  function Corrected(entries: seq<Derivation>, account: Fingerprint, master: MasterAnswer): seq<Derivation> {
    if Targeted(entries, account) && MasterOf(master).Some? then Patched(entries, account, MasterOf(master).value)
    else entries
  }

  predicate Targeted(entries: seq<Derivation>, account: Fingerprint) {
    exists i :: 0 <= i < |entries| && entries[i].fingerprint == account
  }

  /** Entry by entry: this wallet's carry the usable master fingerprint, and everything else is as it was. */
  lemma CorrectedEntryByEntry(entries: seq<Derivation>, account: Fingerprint, answer: MasterAnswer, i: nat)
    requires i < |entries|
    ensures var r := Corrected(entries, account, answer);
            && |r| == |entries|
            && r[i].path == entries[i].path && r[i].pubkey == entries[i].pubkey
            && r[i].fingerprint ==
                 if entries[i].fingerprint == account && MasterOf(answer).Some? then MasterOf(answer).value
                 else entries[i].fingerprint
  {
    if entries[i].fingerprint == account {
      assert Targeted(entries, account);
    }
  }

  /** How a signing attempt ends, given how the bind ended. */
  function AfterBind(b: Result<nat, Refusal>, targeted: bool, parses: bool, master: MasterAnswer, answer: SignAnswer,
                     codec: Codec): Result<string, Refusal>
  {
    if b.Failure? then Failure(b.error)
    else if !parses then Failure(BadPsbt)
    else if targeted && MasterOf(master).None? then Failure(MasterUnreadable)
    else if !SignCall(answer).Returns? then Failure(SigningFailed)
    else
      var text := Normalized(codec, SignCall(answer).response);
      if text.None? then Failure(NothingSigned) else Success(text.value)
  }

  /** The device gave this response: to the text, or to the raw bytes once the text was refused as a type error. */
  predicate Responds(a: SignAnswer, response: Response) {
    a.toText == Returns(response) || (a.toText.RaisesTypeError? && a.toBytes == Returns(response))
  }

  /** The signed document in a response: stripped text, or bytes in base64, and not an empty one of either. */
  predicate Signed(codec: Codec, response: Response, text: string) {
    match response
    case Text(s) => text == codec.strip(s) && text != ""
    case RawBytes(bytes) => text == codec.encode(bytes) && bytes != ""
    case NoPsbt => false
  }

  /** A signing attempt ends with a document exactly when the device was bound, patched and gave that document. */
  lemma SigningEndsExactly(b: Result<nat, Refusal>, targeted: bool, parses: bool, master: MasterAnswer,
                           answer: SignAnswer, codec: Codec, text: string)
    ensures var r := AfterBind(b, targeted, parses, master, answer, codec);
            var reached := b.Success? && parses && (targeted ==> MasterOf(master).Some?);
            && (r == Success(text) <==>
                  reached && exists response :: Responds(answer, response) && Signed(codec, response, text))
            && (b.Success? ==> (r == Failure(BadPsbt) <==> !parses))
            && (b.Success? && parses ==> (r == Failure(MasterUnreadable) <==> targeted && MasterOf(master).None?))
            && (reached ==> (r == Failure(SigningFailed) <==> forall response :: !Responds(answer, response)))
            && (b.Failure? ==> r == Failure(b.error))
  {
    if SignCall(answer).Returns? {
      assert Responds(answer, SignCall(answer).response);
    }
  }

  // ---------------------------------------------------------------- the bus

  function Handles(handles: seq<nat>): set<nat> {
    set i | 0 <= i < |handles| :: handles[i]
  }

  lemma HandlesGrow(handles: seq<nat>, n: nat)
    ensures Handles(handles + [n]) == Handles(handles) + {n}
  {
    var longer := handles + [n];
    assert longer[|handles|] == n;
    assert forall i :: 0 <= i < |handles| ==> longer[i] == handles[i];
  }

  predicate AllAnswered(candidates: seq<Device>, n: nat)
    requires n <= |candidates|
  {
    forall j :: 0 <= j < n ==> Answered(candidates[j])
  }

  lemma TroubleAt(candidates: seq<Device>, n: nat)
    requires n <= |candidates| && AllAnswered(candidates, n)
    requires n < |candidates| ==> !Answered(candidates[n])
    ensures FirstTrouble(candidates) == n
  {
  }

  lemma TroubleDecides(candidates: seq<Device>, expected: Fingerprint, n: nat)
    requires n < |candidates| && AllAnswered(candidates, n) && !Answered(candidates[n])
    ensures BindAnswer(candidates, expected, Failure(TroubleOf(candidates[n])))
  {
    TroubleAt(candidates, n);
  }

  lemma FreshHandle(candidates: seq<Device>, expected: Fingerprint, n: nat)
    requires n <= |candidates|
    ensures n !in Handles(MatchingUpTo(candidates, expected, n))
  {
    MatchingIsExact(candidates, expected, n);
  }

  lemma OneMatchDecides(candidates: seq<Device>, expected: Fingerprint, i: nat)
    requires AllAnswered(candidates, |candidates|) && MatchingUpTo(candidates, expected, |candidates|) == [i]
    ensures BindAnswer(candidates, expected, Success(i))
  {
    MatchingIsExact(candidates, expected, |candidates|);
    assert [i][0] == i;
  }

  lemma NoMatchDecides(candidates: seq<Device>, expected: Fingerprint)
    requires AllAnswered(candidates, |candidates|) && MatchingUpTo(candidates, expected, |candidates|) == []
    ensures BindAnswer(candidates, expected, Failure(Mismatch))
  {
    MatchingIsExact(candidates, expected, |candidates|);
    TroubleAt(candidates, |candidates|);
  }

  lemma ManyMatchesDecide(candidates: seq<Device>, expected: Fingerprint)
    requires AllAnswered(candidates, |candidates|) && |MatchingUpTo(candidates, expected, |candidates|)| > 1
    ensures BindAnswer(candidates, expected, Failure(MultipleMatches))
  {
    MatchingIsExact(candidates, expected, |candidates|);
    TroubleAt(candidates, |candidates|);
    var m := MatchingUpTo(candidates, expected, |candidates|);
    var i, j := m[0], m[1];
    assert i < j && Matches(candidates[i], expected) && Matches(candidates[j], expected);
    assert !ShownToDiffer(candidates[i], expected);
  }

  /** The indices of this wallet's entries among the first `n`. */
  function TargetsUpTo(entries: seq<Derivation>, account: Fingerprint, n: nat): seq<nat>
    requires n <= |entries|
  {
    if n == 0 then []
    else TargetsUpTo(entries, account, n - 1) + (if entries[n - 1].fingerprint == account then [n - 1] else [])
  }

  lemma {:induction false} TargetsAreExact(entries: seq<Derivation>, account: Fingerprint, n: nat)
    requires n <= |entries|
    ensures forall i: nat :: i in TargetsUpTo(entries, account, n) <==> i < n && entries[i].fingerprint == account
  {
    if n == 0 {
    } else {
      TargetsAreExact(entries, account, n - 1);
    }
  }

  class Bus {
    var open: set<nat>

    constructor ()
      ensures open == {}
    {
      open := {};
    }

    method CloseClient(handle: nat)
      modifies this
      ensures open == old(open) - {handle}
    {
      open := open - {handle};
    }

    method CloseAll(handles: seq<nat>)
      modifies this
      ensures open == old(open) - Handles(handles)
    {
      for k := 0 to |handles|
        invariant open == old(open) - Handles(handles[..k])
      {
        HandlesGrow(handles[..k], handles[k]);
        assert handles[..k + 1] == handles[..k] + [handles[k]];
        CloseClient(handles[k]);
      }
      assert handles[..|handles|] == handles;
    }

    /** Either one handle is open and every other candidate was opened and shown to differ, or none is. */
    method OpenMatched(candidates: seq<Device>, expected: Fingerprint) returns (r: Result<nat, Refusal>)
      requires open == {}
      modifies this
      ensures BindAnswer(candidates, expected, r)
      ensures open == if r.Success? then {r.value} else {}
    {
      var matches: seq<nat> := [];
      for n := 0 to |candidates|
        invariant AllAnswered(candidates, n)
        invariant matches == MatchingUpTo(candidates, expected, n)
        invariant open == Handles(matches)
      {
        var device := candidates[n];
        if !device.opening.Client? {
          CloseAll(matches);
          TroubleDecides(candidates, expected, n);
          return Failure(if device.opening.OpenRaises? then OpenFailed else ClientGone);
        }
        open := open + {n};
        HandlesGrow(matches, n);
        if device.opening.key.KeyUnreadable? {
          CloseAll(matches + [n]);
          TroubleDecides(candidates, expected, n);
          return Failure(ReadFailed);
        }
        if device.opening.key.fingerprint == expected {
          matches := matches + [n];
        } else {
          FreshHandle(candidates, expected, n);
          CloseClient(n);
        }
      }
      if |matches| == 1 {
        assert matches == [matches[0]];
        OneMatchDecides(candidates, expected, matches[0]);
        return Success(matches[0]);
      }
      CloseAll(matches);
      if |matches| == 0 {
        NoMatchDecides(candidates, expected);
        return Failure(Mismatch);
      }
      ManyMatchesDecide(candidates, expected);
      r := Failure(MultipleMatches);
    }

    /** Fingerprints of this wallet's entries become the device's master fingerprint, in place, or nothing moves. */
    method PatchDerivations(entries: array<Derivation>, account: Fingerprint, answer: MasterAnswer)
      returns (r: Result<(), Refusal>)
      modifies entries
      ensures var before := old(entries[..]);
              var targeted := Targeted(before, account);
              && (r.Failure? <==> targeted && MasterOf(answer).None?)
              && (r.Failure? ==> r.error == MasterUnreadable)
              && entries[..] == if r.Success? then Corrected(before, account, answer) else before
    {
      var targets: seq<nat> := [];
      ghost var before := entries[..];
      for i := 0 to entries.Length
        invariant targets == TargetsUpTo(before, account, i)
      {
        if entries[i].fingerprint == account {
          targets := targets + [i];
        }
      }
      TargetsAreExact(before, account, |before|);
      if |targets| == 0 {
        return Success(());
      }
      assert targets[0] in targets;
      var usable := MasterOf(answer);
      if usable.None? {
        return Failure(MasterUnreadable);
      }
      var master := usable.value;
      for k := 0 to |targets|
        invariant forall i :: 0 <= i < entries.Length ==>
                    entries[i] == if i in targets[..k] then before[i].(fingerprint := master) else before[i]
      {
        var i := targets[k];
        assert i in targets;
        assert targets[..k + 1] == targets[..k] + [i];
        entries[i] := entries[i].(fingerprint := master);
      }
      assert targets[..|targets|] == targets;
      assert entries[..] == Patched(before, account, master);
      return Success(());
    }

    /** However it ends, no handle stays open; the answer is the bind's refusal or what follows a successful bind. */
    method SignUnsigned(devices: seq<Device>, expected: Fingerprint, entries: array<Derivation>,
                        parses: bool, master: MasterAnswer, answer: SignAnswer, codec: Codec)
      returns (r: Result<string, Refusal>)
      requires open == {}
      modifies this, entries
      ensures open == {}
      ensures SelectCandidates(devices).Failure? ==> r == Failure(SelectCandidates(devices).error)
      ensures SelectCandidates(devices).Success? ==>
                exists b :: BindAnswer(Readable(devices), expected, b) &&
                            r == AfterBind(b, Targeted(old(entries[..]), expected), parses, master, answer, codec)
      ensures entries[..] ==
              if r.Success? || r.error == SigningFailed || r.error == NothingSigned
              then Corrected(old(entries[..]), expected, master)
              else old(entries[..])
    {
      var candidates := SelectCandidates(devices);
      if candidates.Failure? {
        return Failure(candidates.error);
      }
      var bound := OpenMatched(candidates.value, expected);
      assert BindAnswer(Readable(devices), expected, bound);
      if bound.Failure? {
        return Failure(bound.error);
      }
      if !parses {
        CloseClient(bound.value);
        return Failure(BadPsbt);
      }
      var patch := PatchDerivations(entries, expected, master);
      if patch.Failure? {
        CloseClient(bound.value);
        return Failure(patch.error);
      }
      var call := SignCall(answer);
      CloseClient(bound.value);
      if !call.Returns? {
        return Failure(SigningFailed);
      }
      var text := Normalized(codec, call.response);
      r := if text.None? then Failure(NothingSigned) else Success(text.value);
    }
  }
}
